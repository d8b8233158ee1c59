/**
 * The branch-and-bound engine of scheduler.py: class `ILP`, which maximises
 * `c·x` over integer points by solving LP relaxations, pruning nodes whose
 * relaxation is below the floor, accepting integral relaxation points as the
 * incumbent and branching on the first non-integer coordinate otherwise.
 */
module Ilp {
  import opened Wrappers
  import opened Branching

  /** `sys.maxsize` on a 64-bit build. */
  const MaxSize: int := 0x7FFF_FFFF_FFFF_FFFF

  /** `-c` on a NumPy vector. */
  function Negate(v: Vector): Vector
  {
    seq(|v|, i requires 0 <= i < |v| => -v[i])
  }

  /** The fields of an `ILP` that `solve` updates: floor, incumbent and queue. */
  datatype State = State(lowerBound: real, optVal: Option<real>, optX: Option<Vector>, queue: seq<Node>)

  /** The floor never decreases and the incumbent value never decreases once set. */
  ghost predicate Improves(st: State, st': State)
  {
    && st.lowerBound <= st'.lowerBound
    && (st.optVal.Some? ==> st'.optVal.Some? && st.optVal.value <= st'.optVal.value)
  }

  /** How a bounded run of `solve` ends. */
  datatype Outcome =
    | Exhausted          // the queue is empty: the loop of `solve` has finished
    | OutOfFuel          // the step budget ran out with nodes still queued
    | IndexError(idx: nat)  // branching index outside the columns of `A_ub`

  class ILP {
    /** `LOWER_BOUND`, the pruning floor. */
    var lowerBound: real
    /** `UPPER_BOUND`, set and never read. */
    const upperBound: real
    /** `opt_val` and `opt_x`, the incumbent; `None` until one is found. */
    var optVal: Option<real>
    var optX: Option<Vector>
    /** `Q`, the FIFO work list: the front is `queue[0]`. */
    var queue: seq<Node>
    /** The objective negated into the minimisation sense that `linprog` solves. */
    const c: Vector
    const aEq: Option<Matrix>
    const bEq: Option<Vector>
    const bounds: seq<Bound>
    /** The LP relaxation solver. */
    const linprog: Oracle
    /** The caller's inequality constraints, which every node extends. */
    ghost const rootA: Matrix
    ghost const rootB: Vector

    /** The fields as a value. */
    function Current(): State
      reads this
    {
      State(lowerBound, optVal, optX, queue)
    }

    /**
     * A queued node: its relaxation succeeded, it is the relaxation of the
     * node's own constraints, and those are the root constraints with zero or
     * more cuts appended.
     */
    ghost predicate NodeOk(n: Node)
    {
      n.res.success && n.res == Relax(n.aUb, n.bUb) && Extends(rootA, rootB, n.aUb, n.bUb)
    }

    /**
     * The floor is `-sys.maxsize` until an incumbent exists and equals the
     * incumbent's value afterwards; the incumbent point is integral; every
     * queued node satisfies `NodeOk`.
     */
    ghost predicate Inv(st: State)
    {
      && (st.optVal.None? <==> st.optX.None?)
      && (st.optVal.None? ==> st.lowerBound == -(MaxSize as real))
      && (st.optVal.Some? ==> -(MaxSize as real) <= st.optVal.value == st.lowerBound)
      && (st.optX.Some? ==> AllInteger(st.optX.value))
      && (forall k :: 0 <= k < |st.queue| ==> NodeOk(st.queue[k]))
    }

    ghost predicate Valid()
      reads this
    {
      Inv(Current())
    }

    /** The relaxation of the problem under the inequality constraints `a x <= b`. */
    function Relax(a: Matrix, b: Vector): LpResult
    {
      linprog(Lp(c, a, b, aEq, bEq, bounds))
    }

    /**
     * The two children of branching `n` on coordinate `idx`, each with its
     * relaxation. When `n` extends the root constraints so do both children;
     * the first child's region is `n`'s with `y[idx] >= ceil(x[idx])` and the
     * second's is `n`'s with `y[idx] <= floor(x[idx])`.
     */
    function Children(n: Node, idx: nat): (r: (Node, Node))
      requires idx < n.aUb.width && idx < |n.res.x|
      ensures Extends(rootA, rootB, n.aUb, n.bUb) ==>
        Extends(rootA, rootB, r.0.aUb, r.0.bUb) && Extends(rootA, rootB, r.1.aUb, r.1.bUb)
      ensures forall y ::
                (Satisfies(r.0.aUb, r.0.bUb, y) <==> Satisfies(n.aUb, n.bUb, y) && y[idx] >= Ceil(n.res.x[idx]) as real)
      ensures forall y ::
                (Satisfies(r.1.aUb, r.1.bUb, y) <==> Satisfies(n.aUb, n.bUb, y) && y[idx] <= n.res.x[idx].Floor as real)
    {
      var v := n.res.x[idx];
      var (a1, b1) := UpCut(n.aUb, n.bUb, idx, v);
      var (a2, b2) := DownCut(n.aUb, n.bUb, idx, v);
      assert Extends(rootA, rootB, n.aUb, n.bUb) ==>
        Extends(rootA, rootB, a1, b1) && Extends(rootA, rootB, a2, b2) by {
        if Extends(rootA, rootB, n.aUb, n.bUb) {
          ChildrenExtend(rootA, rootB, n.aUb, n.bUb, idx, v);
        }
      }
      assert forall y :: (Satisfies(a1, b1, y) <==> Satisfies(n.aUb, n.bUb, y) && y[idx] >= Ceil(v) as real)
                      && (Satisfies(a2, b2, y) <==> Satisfies(n.aUb, n.bUb, y) && y[idx] <= v.Floor as real) by {
        forall y
          ensures Satisfies(a1, b1, y) <==> Satisfies(n.aUb, n.bUb, y) && y[idx] >= Ceil(v) as real
          ensures Satisfies(a2, b2, y) <==> Satisfies(n.aUb, n.bUb, y) && y[idx] <= v.Floor as real
        {
          if idx < |y| {
            UpCutRegion(n.aUb, n.bUb, idx, v, y);
            DownCutRegion(n.aUb, n.bUb, idx, v, y);
          }
        }
      }
      (Node(Relax(a1, b1), a1, b1), Node(Relax(a2, b2), a2, b2))
    }

    /**
     * One pass of the loop of `solve` on the fields as a value: the new fields
     * and, when branching raises `IndexError`, the offending index.
     */
    function Next(st: State): (State, Option<nat>)
      requires st.queue != []
    {
      var n := st.queue[0];
      var rest := st.queue[1..];
      var v := Value(n.res);
      if v < st.lowerBound then
        (st.(queue := rest), None)
      else if AllInteger(n.res.x) then
        var floor := if st.lowerBound < v then v else st.lowerBound;
        if st.optVal.None? || st.optVal.value < v then
          (State(floor, Some(v), Some(n.res.x), rest), None)
        else
          (State(floor, st.optVal, st.optX, rest), None)
      else
        var idx := FirstNonInteger(n.res.x);
        if n.aUb.width <= idx then
          (st.(queue := rest), Some(idx))
        else
          var (c1, c2) := Children(n, idx);
          (st.(queue := rest + Survivors(c1, c2)), None)
    }

    /**
     * At most `k` passes of the loop of `solve`: it stops early when the queue
     * is empty or a pass raises `IndexError`.
     */
    function Run(st: State, k: nat): (State, Option<nat>)
      decreases k
    {
      if k == 0 || st.queue == [] then (st, None)
      else
        var (st', error) := Next(st);
        if error.Some? then (st', error) else Run(st', k - 1)
    }

    /**
     * One pass keeps the invariant, never lowers the floor or the incumbent
     * value, takes a new incumbent only from an all-integer point of the popped
     * node with a strictly larger value, and removes the front node while
     * appending at most two nodes at the back.
     */
    lemma NextPreserves(st: State)
      requires Inv(st) && st.queue != []
      ensures Inv(Next(st).0) && Improves(st, Next(st).0)
      ensures var st' := Next(st).0;
        st'.optVal != st.optVal ==>
          && st'.optVal == Some(Value(st.queue[0].res)) && st'.optX == Some(st.queue[0].res.x)
          && AllInteger(st.queue[0].res.x)
          && (st.optVal.None? || st.optVal.value < st'.optVal.value)
      ensures var st' := Next(st).0;
        && |st.queue| - 1 <= |st'.queue| <= |st.queue| + 1
        && st'.queue[..|st.queue| - 1] == st.queue[1..]
    {
      var n := st.queue[0];
      if Value(n.res) >= st.lowerBound && !AllInteger(n.res.x) {
        var idx := FirstNonInteger(n.res.x);
        if idx < n.aUb.width {
          BranchKeepsNodes(st, idx);
        }
      }
    }

    /** The nodes left after popping, followed by the surviving children, all satisfy `NodeOk`. */
    lemma BranchKeepsNodes(st: State, idx: nat)
      requires Inv(st) && st.queue != []
      requires idx == FirstNonInteger(st.queue[0].res.x) < st.queue[0].aUb.width
      requires !AllInteger(st.queue[0].res.x)
      ensures var n := st.queue[0];
        var q := st.queue[1..] + Survivors(Children(n, idx).0, Children(n, idx).1);
        forall k :: 0 <= k < |q| ==> NodeOk(q[k])
    {
      var n := st.queue[0];
      ChildrenExtend(rootA, rootB, n.aUb, n.bUb, idx, n.res.x[idx]);
      var (c1, c2) := Children(n, idx);
      assert NodeOk(c1) || !c1.res.success;
      assert NodeOk(c2) || !c2.res.success;
      var rest := st.queue[1..];
      var added := Survivors(c1, c2);
      var q := rest + added;
      forall k | 0 <= k < |q| ensures NodeOk(q[k]) {
        if k < |rest| {
          assert q[k] == st.queue[k + 1];
        } else {
          assert q[k] == added[k - |rest|];
        }
      }
    }

    /**
     * The three outcomes of a pass. A node below the floor is dropped and
     * nothing else changes. An all-integer node raises the floor to its value
     * and becomes the incumbent exactly when there was none or it is strictly
     * better. Any other node leaves floor and incumbent alone and either
     * raises `IndexError` at the first non-integer index, when that is not a
     * column of `A_ub`, or appends the surviving children at the back.
     */
    lemma NextCases(st: State)
      requires Inv(st) && st.queue != []
      ensures var (st', error) := Next(st);
        var n := st.queue[0];
        if Value(n.res) < st.lowerBound then
          error == None && st' == st.(queue := st.queue[1..])
        else if AllInteger(n.res.x) then
          && error == None && st'.queue == st.queue[1..]
          && st'.lowerBound == Value(n.res) && st'.optVal == Some(Value(n.res))
          && st'.optX == (if st.optVal.None? || st.optVal.value < Value(n.res)
                          then Some(n.res.x) else st.optX)
        else
          && st'.lowerBound == st.lowerBound && st'.optVal == st.optVal && st'.optX == st.optX
          && var idx := FirstNonInteger(n.res.x);
          if n.aUb.width <= idx then
            error == Some(idx) && st'.queue == st.queue[1..]
          else
            && error == None
            && st'.queue == st.queue[1..] + Survivors(Children(n, idx).0, Children(n, idx).1)
    {
    }

    /**
     * Any number of passes keeps the invariant and never lowers the floor or
     * the incumbent value.
     */
    lemma {:induction false} RunPreserves(st: State, k: nat)
      requires Inv(st)
      ensures Inv(Run(st, k).0) && Improves(st, Run(st, k).0)
      decreases k
    {
      if k != 0 && st.queue != [] {
        NextPreserves(st);
        var (st', error) := Next(st);
        if error.None? {
          RunPreserves(st', k - 1);
        }
      }
    }

    /**
     * A run of at least one pass on a non-empty queue takes the pass `Next`
     * makes to `st'` and then either stops with its error or goes on from `st'`.
     */
    lemma RunUnfold(st: State, k: nat, st': State, error: Option<nat>)
      requires st.queue != [] && 0 < k && (st', error) == Next(st)
      ensures error.Some? ==> Run(st, k) == (st', error)
      ensures error.None? ==> Run(st, k) == Run(st', k - 1)
    {
    }

    /**
     * `ILP(c, A_ub, b_ub, A_eq, b_eq, bounds)`: fails with the source's
     * `ValueError` when the root relaxation does not succeed; otherwise the
     * queue holds the root node alone and there is no incumbent.
     */
    static method Create(c: Vector, aUb: Matrix, bUb: Vector, aEq: Option<Matrix>,
                         bEq: Option<Vector>, bounds: seq<Bound>, linprog: Oracle)
      returns (r: Result<ILP>)
      ensures r.Failure? <==> !linprog(Lp(Negate(c), aUb, bUb, aEq, bEq, bounds)).success
      ensures r.Failure? ==> r.error == "Not a feasible problem!"
      ensures r.Success? ==> var s := r.value;
        && fresh(s) && s.Valid()
        && s.queue == [Node(linprog(Lp(Negate(c), aUb, bUb, aEq, bEq, bounds)), aUb, bUb)]
        && s.optVal == None && s.optX == None
        && s.lowerBound == -(MaxSize as real) && s.upperBound == MaxSize as real
        && s.c == Negate(c) && s.aEq == aEq && s.bEq == bEq && s.bounds == bounds
        && s.linprog == linprog && s.rootA == aUb && s.rootB == bUb
    {
      var root := linprog(Lp(Negate(c), aUb, bUb, aEq, bEq, bounds));
      if !root.success {
        return Failure("Not a feasible problem!");
      }
      var s := new ILP(c, aUb, bUb, aEq, bEq, bounds, linprog, root);
      return Success(s);
    }

    /** The part of `__init__` after the root relaxation has succeeded. */
    constructor (c: Vector, aUb: Matrix, bUb: Vector, aEq: Option<Matrix>,
                 bEq: Option<Vector>, bounds: seq<Bound>, linprog: Oracle, root: LpResult)
      requires root.success && root == linprog(Lp(Negate(c), aUb, bUb, aEq, bEq, bounds))
      ensures Valid()
      ensures queue == [Node(root, aUb, bUb)] && optVal == None && optX == None
      ensures lowerBound == -(MaxSize as real) && upperBound == MaxSize as real
      ensures this.c == Negate(c) && this.aEq == aEq && this.bEq == bEq
      ensures this.bounds == bounds && this.linprog == linprog
      ensures rootA == aUb && rootB == bUb
    {
      lowerBound := -(MaxSize as real);
      upperBound := MaxSize as real;
      optVal := None;
      optX := None;
      this.c := Negate(c);
      this.aEq := aEq;
      this.bEq := bEq;
      this.bounds := bounds;
      this.linprog := linprog;
      rootA := aUb;
      rootB := bUb;
      queue := [Node(root, aUb, bUb)];
      new;
      assert NodeOk(Node(root, aUb, bUb)) by {
        assert aUb.rows[..|aUb.rows|] == aUb.rows;
        assert bUb[..|bUb|] == bUb;
      }
    }

    /**
     * One pass of the loop of `solve`: pop the front node, then prune it,
     * accept its integral relaxation point, or branch on its first non-integer
     * coordinate and enqueue the children whose relaxation succeeds. Returns
     * the branching index when it lies outside the columns of `A_ub`, where the
     * source raises `IndexError`.
     */
    method Step() returns (error: Option<nat>)
      requires Valid() && queue != []
      modifies this
      ensures (Current(), error) == Next(old(Current()))
      ensures Valid()
      ensures lowerBound >= old(lowerBound)
      ensures old(optVal).Some? ==> optVal.Some? && optVal.value >= old(optVal).value
    {
      ghost var st := Current();
      NextPreserves(st);
      var n := queue[0];
      queue := queue[1..];
      var v := Value(n.res);
      if v < lowerBound {
        return None;
      }
      if AllInteger(n.res.x) {
        if lowerBound < v {
          lowerBound := v;
        }
        if optVal.None? || optVal.value < v {
          optVal := Some(v);
          optX := Some(n.res.x);
        }
        return None;
      }
      var idx := FindBranchIndex(n.res.x);
      if n.aUb.width <= idx {
        return Some(idx);
      }
      var (a1, b1) := UpCut(n.aUb, n.bUb, idx, n.res.x[idx]);
      var (a2, b2) := DownCut(n.aUb, n.bUb, idx, n.res.x[idx]);
      var r1 := linprog(Lp(c, a1, b1, aEq, bEq, bounds));
      var r2 := linprog(Lp(c, a2, b2, aEq, bEq, bounds));
      ChildrenExtend(rootA, rootB, n.aUb, n.bUb, idx, n.res.x[idx]);
      queue := queue + Survivors(Node(r1, a1, b1), Node(r2, a2, b2));
      return None;
    }

    /**
     * The loop of `solve`, with at most `fuel` passes: the final fields and
     * the outcome are those of `Run` from the initial fields.
     */
    method RunLoop(fuel: nat) returns (outcome: Outcome)
      requires Valid()
      modifies this
      ensures var (st, error) := Run(old(Current()), fuel);
        && Current() == st
        && outcome == (if error.Some? then IndexError(error.value)
                       else if st.queue == [] then Exhausted else OutOfFuel)
    {
      ghost var start := Current();
      var left: nat := fuel;
      var error: Option<nat> := None;
      while queue != [] && 0 < left && error.None?
        invariant Valid()
        invariant Run(start, fuel) == if error.Some? then (Current(), error) else Run(Current(), left)
        decreases left
      {
        ghost var before := Current();
        error := Step();
        RunUnfold(before, left, Current(), error);
        left := left - 1;
      }
      outcome := if error.Some? then IndexError(error.value)
                 else if queue == [] then Exhausted else OutOfFuel;
    }

    /**
     * `solve`, with at most `fuel` passes of its loop: the outcome and final
     * fields are those of `Run`, the floor never decreases, the incumbent
     * value never decreases once set, the incumbent point stays integral, and
     * `Exhausted` means the queue was emptied.
     */
    method Solve(fuel: nat) returns (outcome: Outcome)
      requires Valid()
      modifies this
      ensures var (st, error) := Run(old(Current()), fuel);
        && Current() == st
        && outcome == (if error.Some? then IndexError(error.value)
                       else if st.queue == [] then Exhausted else OutOfFuel)
      ensures Valid()
      ensures lowerBound >= old(lowerBound)
      ensures old(optVal).Some? ==> optVal.Some? && optVal.value >= old(optVal).value
      ensures optVal.Some? ==> optVal.value == lowerBound && AllInteger(optX.value)
      ensures outcome == Exhausted ==> queue == []
      ensures outcome == OutOfFuel ==> queue != []
    {
      ghost var start := Current();
      RunPreserves(start, fuel);
      outcome := RunLoop(fuel);
    }
  }
}
