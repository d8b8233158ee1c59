# Branch-and-bound integer programming, modelled in Dafny

This project models the integer linear programming solver of `scheduler.py`
(class `ILP`) and the numeric helpers of
`singa_easy/modules/mod_modelslicing/utils/utilities.py` (`timeSince` and
`AverageMeter`), and proves properties of the model.

`ILP` maximises `c·x` over integer points subject to `A_ub x <= b_ub`,
`A_eq x == b_eq` and per-variable bounds. It solves LP relaxations with
`scipy.optimize.linprog`, and keeps a first-in-first-out queue of nodes. Each
node is a relaxation result together with its inequality constraints. The
loop of `solve` pops one node and does one of three things:

- it prunes the node when its value `-res.fun` is below `LOWER_BOUND`;
- it accepts an all-integer relaxation point as the incumbent
  (`opt_val`, `opt_x`);
- otherwise it branches on the first non-integer coordinate `x[idx]`. One
  child gets the cut `x[idx] >= ceil(x[idx])`, the other `x[idx] <= floor(x[idx])`.
  Each child is re-solved, and only children whose relaxation succeeded are
  enqueued, the better one first.

Layout:

- `wrappers.dfy`: `Option` and `Result`.
- `branching.dfy` (module `Branching`): the shapes of the data handed to the
  LP solver. The solver is an abstract function `Lp -> LpResult`, where an
  `LpResult` carries `success`, `fun` and `x` as scipy's result object does.
  The module also holds the integrality test, the branching index, the cut
  rows and the order in which children are enqueued, with the lemmas about
  them.
- `ilp.dfy` (module `Ilp`): class `ILP` with its fields, the construction,
  one pass of the loop (`Step`) and `Solve`.
- `utilities.dfy` (module `Utilities`): `TimeSince` and class `AverageMeter`,
  which keeps a ghost history of its updates.

Numbers are `real`, matrices carry their column count (`A_ub.shape[1]`, which
the cut rows are built from), and the queue is a `seq` used first in, first out.

The model follows the code where it departs from a textbook branch-and-bound
solver:

- a node is pruned only when its value is strictly below the floor, not when
  it is merely not better;
- the integrality test is exact (`float.is_integer()`), with no tolerance;
- dimensions are not validated;
- a search that finds no integer point leaves `opt_val` at `None` instead of
  reporting an error;
- on a tie between the two children's values, the second child
  (`x[idx] <= floor`) is enqueued first.

## Model

| member | source | states |
|---|---|---|
| `Ilp.ILP.Create` | scheduler.py:10-32 | fails with `ValueError('Not a feasible problem!')` exactly when the root relaxation of `-c` fails; otherwise a fresh valid solver whose queue is exactly the root node `(root result, A_ub, b_ub)`, with no incumbent, `LOWER_BOUND == -sys.maxsize`, `UPPER_BOUND == sys.maxsize` and the objective stored negated |
| `Ilp.ILP.constructor` | scheduler.py:10-32 | the fields after a successful root relaxation: one queued node, no incumbent, floor `-sys.maxsize`; the object invariant holds |
| `Ilp.Negate` | scheduler.py:19 | definition: the objective handed to `linprog` is `-c`, coordinate by coordinate, so that minimising it maximises `c·x` |
| `Ilp.ILP.Step` | scheduler.py:35-90 | the new floor, incumbent and queue, with the error index, are exactly `Next` of the old ones (whose cases `NextCases` spells out); the invariant is kept, and the floor and the incumbent value never decrease |
| `Ilp.ILP.Next` | scheduler.py:37-90 | one pass of the loop on the fields as a value: prune below the floor, accept an all-integer point (the floor becomes the larger of floor and value; the incumbent is replaced only by a strictly larger value), or branch on the first non-integer index, with `IndexError` when that index is not a column of `A_ub` |
| `Ilp.ILP.NextCases` | scheduler.py:37-90 | exactly one node leaves the front of the queue. A node below the floor changes nothing else. An all-integer node raises the floor to its own value, and becomes the incumbent exactly when there was none or its value is strictly larger. Otherwise the floor and incumbent are unchanged: branching on index `FirstNonInteger(x)` either reports the source's `IndexError` (index outside the columns of `A_ub`) or appends `Survivors` of the two cut children at the back |
| `Ilp.ILP.Run` | scheduler.py:35-90 | at most `k` passes of the loop, stopping early on an empty queue or an `IndexError` |
| `Ilp.ILP.NextPreserves` | scheduler.py:37-90 | one pass keeps the invariant: the floor equals the incumbent value once there is one and `-sys.maxsize` before; the incumbent is integral; every queued node has a successful relaxation that is the relaxation of its own constraints, which extend the root's by cuts. The floor and the incumbent value never decrease, and a new incumbent is the popped node's all-integer point with a strictly larger value. The front node is removed, the rest of the queue keeps its order, and at most two nodes are appended |
| `Ilp.ILP.BranchKeepsNodes` | scheduler.py:63-90 | after branching, the remaining queue followed by the surviving children consists of successful relaxations of their own constraints, each extending the root constraints by cuts |
| `Ilp.ILP.RunPreserves` | scheduler.py:34-90 | any number of passes keeps the invariant and never lowers the floor or the incumbent value |
| `Ilp.ILP.Relax` | scheduler.py:76-79 | the relaxation of a child is `linprog` on the stored negated objective, the child's inequality constraints and the fixed equality constraints and bounds |
| `Ilp.ILP.Children` | scheduler.py:63-79 | the points satisfying the first child's constraints are exactly the parent's points with `y[idx] >= ceil(x[idx])`, those of the second child the parent's points with `y[idx] <= floor(x[idx])`; when the parent's constraints extend the root's by cuts, so do both children's |
| `Ilp.ILP.RunLoop` | scheduler.py:35-90 | the loop of `solve` with at most `fuel` passes: its final fields and outcome are those of `Run` from the initial fields, reached one `Step` at a time |
| `Ilp.ILP.Solve` | scheduler.py:34-90 | the final fields and the outcome are those of `Run` for `fuel` passes from the initial fields: `IndexError` when a pass raised it, `Exhausted` when the queue is then empty, `OutOfFuel` otherwise. The invariant holds, the floor and the incumbent value never decrease, and the incumbent equals the floor and is integral |
| `Branching.FirstNonInteger` | scheduler.py:57-61 | the branching index is at most `|x|`, every coordinate before it is an integer, the coordinate at it is not, and it equals `|x|` exactly when every coordinate is an integer |
| `Branching.FindBranchIndex` | scheduler.py:57-61 | the counting loop returns the lowest non-integer index (`FirstNonInteger`) |
| `Branching.Value` | scheduler.py:40 | definition: a relaxation's value in the maximisation sense is `-res.fun`, the quantity compared with the floor and stored as the incumbent value |
| `Branching.IsInteger` | scheduler.py:44 | `is_integer()` holds exactly when the number equals some integer |
| `Branching.AllInteger` | scheduler.py:44 | the all-integer test holds exactly when every coordinate equals some integer |
| `Branching.Ceil` | scheduler.py:70-73 | `math.ceil(v)` is the least integer `>= v`; it equals `v` exactly for integral `v` and is `floor(v) + 1` otherwise |
| `Branching.CutRow` | scheduler.py:64-67 | `np.zeros(width)` with `coeff` at `idx`: length `width`, `coeff` at `idx` and `0` everywhere else |
| `Branching.AppendRow` | scheduler.py:68-73 | `np.insert` at the end: the width is kept, the old rows and right-hand sides are the prefix, and the new row and right-hand side come last |
| `Branching.UpCut` | scheduler.py:64-71 | the first child keeps the parent's rows and right-hand sides and appends the row `-e_idx` with right-hand side `-ceil(v)` |
| `Branching.DownCut` | scheduler.py:66-73 | the second child keeps the parent's rows and right-hand sides and appends the row `+e_idx` with right-hand side `floor(v)` |
| `Branching.DotCutRow` | scheduler.py:64-67 | the row `np.zeros` with `coeff` at `idx` picks `coeff * y[idx]` out of any point `y` |
| `Branching.SatisfiesAppend` | scheduler.py:68-73 | a point satisfies the constraint set with one appended row iff it satisfies the parent's rows and the new row |
| `Branching.UpCutRegion` | scheduler.py:64-71 | a point satisfies the up-cut constraints exactly when it satisfies the parent's and `y[idx] >= ceil(v)` |
| `Branching.DownCutRegion` | scheduler.py:66-73 | a point satisfies the down-cut constraints exactly when it satisfies the parent's and `y[idx] <= floor(v)` |
| `Branching.BranchSplitsRegion` | scheduler.py:63-73 | by the two region lemmas, the parent's relaxation point (whose coordinate `idx` is not an integer) lies in neither child, and every parent point whose coordinate `idx` is an integer lies in one of the two children |
| `Branching.ChildrenExtend` | scheduler.py:63-73 | both children of a root-extending node extend the root: the parent rows are untouched and one cut row with integer right-hand side is added |
| `Branching.Survivors` | scheduler.py:80-90 | exactly the children whose relaxation succeeded are enqueued, at most two. When both succeeded the one with the larger value goes first, and on a tie the second child goes first. None are enqueued when neither succeeded |
| `Utilities.TimeSince` | singa_easy/modules/mod_modelslicing/utils/utilities.py:26-33 | `hours * 3600 + minutes * 60 + seconds == s`, with minutes and seconds in `[0, 60)` |
| `Utilities.HoursAreWholeHours` | singa_easy/modules/mod_modelslicing/utils/utilities.py:29-31 | the hours are `s div 3600` |
| `Utilities.WeightedSumAppend` | singa_easy/modules/mod_modelslicing/utils/utilities.py:50 | one more update adds `val * n` to the running sum of the history |
| `Utilities.TotalCountAppend` | singa_easy/modules/mod_modelslicing/utils/utilities.py:51 | one more update adds `n` to the running count of the history |
| `Utilities.AverageMeter.constructor` | singa_easy/modules/mod_modelslicing/utils/utilities.py:39-46 | a new meter has `val`, `avg`, `sum` and `count` all zero and an empty history |
| `Utilities.AverageMeter.Reset` | singa_easy/modules/mod_modelslicing/utils/utilities.py:42-46 | `val`, `avg`, `sum` and `count` become zero and the history is emptied |
| `Utilities.AverageMeter.Update` | singa_easy/modules/mod_modelslicing/utils/utilities.py:48-52 | `val` becomes the argument, `sum` grows by `val * n` and `count` by `n` (default `n = 1`). When the new count is non-zero, `avg` is the weighted mean of every update since the last reset. When it is zero, the source's `ZeroDivisionError` is reported and `avg` is stale. `sum` and `count` always total the history |

## Left out

- `scipy.optimize.linprog` is an abstract function of its arguments. Its algorithm, numerical tolerance, and the exceptions it raises on malformed input are not modelled.
- Ilp.ILP.Create: `A_ub` and `b_ub` are always a matrix with a column count and a vector. `linprog` also accepts `A_ub=None, b_ub=None`, so construction succeeds on such a problem; `solve` then raises `AttributeError` on `A_ub.shape[1]` (scheduler.py:64) at its first branch, losing the popped node as the modelled `IndexError` does. That error path is not modelled.
- Ilp.ILP.Solve: takes a step budget `fuel`. The source's loop has no bound and need not terminate when variable domains are unbounded.
- Global optimality of the returned incumbent and the expected answers of `test1`–`test3` depend on the real LP solver and are not stated.
- The drivers `test1`, `test2`, `test3`, `testAny` and the `__main__` sweep build problem data and print; they are not part of this model.
- `queue.Queue` locking is not modelled; the model is sequential, as the solver is.
- Floating point: numbers are exact reals. The casts NumPy applies when inserting into an integer-typed `b_ub` are not modelled; the values inserted are integers anyway.
- Utilities.TimeSince: models the `s`-given path only. The `since` path reads the wall clock, and the `'%dh %dm %ds'` string formatting is replaced by the numeric triple. The float division `s / 60` is taken as exact.
- `logger` is file and stream I/O. `accuracy` and `accuracy_float` are PyTorch tensor operations with debug printing. None of them is part of this model.
- Utilities.AverageMeter: `val` and `n` are reals. Python also accepts other numeric types there.
