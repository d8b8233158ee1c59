/**
 * The pure part of the branch-and-bound engine of scheduler.py: the shapes of
 * the data passed to the LP relaxation solver, the integrality test, the choice
 * of the branching variable, the two cuts a branch adds, and the order in which
 * the surviving children are enqueued.
 */
module Branching {
  import opened Wrappers

  type Vector = seq<real>

  /**
   * A two-dimensional array: `rows` and the column count `width`, which the
   * array knows even when it has no rows.
   */
  datatype Matrix = Matrix(width: nat, rows: seq<Vector>)

  /** One `(low, high)` pair of the `bounds` argument; `None` is unbounded. */
  datatype Bound = Bound(low: Option<real>, high: Option<real>)

  /** The arguments of one call `linprog(c, A_ub, b_ub, A_eq, b_eq, bounds)`. */
  datatype Lp = Lp(c: Vector, aUb: Matrix, bUb: Vector,
                   aEq: Option<Matrix>, bEq: Option<Vector>, bounds: seq<Bound>)

  /**
   * What the solver returns: whether it succeeded, the minimum `fun` of `c·x`
   * and the minimiser `x`. When `success` is false, `fun` and `x` carry no meaning.
   */
  datatype LpResult = LpResult(success: bool, fun: real, x: Vector)

  /** The LP relaxation solver, a collaborator whose workings are not modelled. */
  type Oracle = Lp -> LpResult

  /** A pending subproblem: its cached relaxation and its inequality constraints. */
  datatype Node = Node(res: LpResult, aUb: Matrix, bUb: Vector)

  /** The objective value of a relaxation in the maximisation sense, `-res.fun`. */
  function Value(r: LpResult): real
  {
    -r.fun
  }

  // ---------------------------------------------------------------------------
  // Integrality

  /** An integer viewed as a real. */
  function AsReal(k: int): real
  {
    k as real
  }

  /** `v.is_integer()` on a float: exact, no tolerance. */
  predicate IsInteger(v: real)
    ensures IsInteger(v) <==> exists k: int :: AsReal(k) == v
  {
    assert forall k: int :: AsReal(k) == v ==> v.Floor == k;
    assert v == v.Floor as real ==> AsReal(v.Floor) == v;
    v == v.Floor as real
  }

  /** `all(map(lambda f: f.is_integer(), x))`. */
  predicate AllInteger(x: Vector)
    ensures AllInteger(x) <==> forall i :: 0 <= i < |x| ==> exists k: int :: AsReal(k) == x[i]
  {
    assert forall i :: 0 <= i < |x| ==> (IsInteger(x[i]) <==> exists k: int :: AsReal(k) == x[i]);
    forall i :: 0 <= i < |x| ==> IsInteger(x[i])
  }

  /** `math.ceil`. */
  function Ceil(v: real): (r: int)
    ensures v <= r as real < v + 1.0
    ensures IsInteger(v) <==> r as real == v
    ensures !IsInteger(v) ==> r == v.Floor + 1
  {
    -((-v).Floor)
  }

  /**
   * The index the search branches on: the lowest index whose coordinate is not
   * an integer, or `|x|` when every coordinate is one.
   */
  function FirstNonInteger(x: Vector): (idx: nat)
    ensures idx <= |x|
    ensures forall j :: 0 <= j < idx ==> IsInteger(x[j])
    ensures idx < |x| ==> !IsInteger(x[idx])
    ensures idx == |x| <==> AllInteger(x)
  {
    if x == [] then 0
    else if !IsInteger(x[0]) then 0
    else 1 + FirstNonInteger(x[1..])
  }

  /** The counting loop of `solve` that finds the branching index. */
  method FindBranchIndex(x: Vector) returns (idx: nat)
    ensures idx == FirstNonInteger(x)
  {
    idx := 0;
    while idx < |x| && IsInteger(x[idx])
      invariant idx <= FirstNonInteger(x)
    {
      idx := idx + 1;
    }
  }

  // ---------------------------------------------------------------------------
  // Constraints and cuts

  function Dot(u: Vector, v: Vector): real
    requires |u| == |v|
  {
    if u == [] || v == [] then 0.0 else u[0] * v[0] + Dot(u[1..], v[1..])
  }

  /** `y` has one coordinate per column and satisfies every row of `A y <= b`. */
  predicate Satisfies(a: Matrix, b: Vector, y: Vector)
  {
    && |a.rows| == |b| && |y| == a.width
    && forall i :: 0 <= i < |b| ==> |a.rows[i]| == a.width && Dot(a.rows[i], y) <= b[i]
  }

  /** `np.zeros(width)` with `coeff` written at `idx`. */
  function CutRow(width: nat, idx: nat, coeff: real): (row: Vector)
    requires idx < width
    ensures |row| == width
    ensures forall j :: 0 <= j < width ==> row[j] == if j == idx then coeff else 0.0
  {
    seq(width, _ => 0.0)[idx := coeff]
  }

  /** A row `+e_i` or `-e_i` of the given width. */
  ghost predicate IsCutRow(row: Vector, width: nat)
  {
    exists i :: 0 <= i < width && (row == CutRow(width, i, 1.0) || row == CutRow(width, i, -1.0))
  }

  /** `np.insert(A, A.shape[0], row, axis=0)` together with the same on `b`. */
  function AppendRow(a: Matrix, b: Vector, row: Vector, rhs: real): (r: (Matrix, Vector))
    ensures r.0.width == a.width
    ensures |r.0.rows| == |a.rows| + 1 && r.0.rows[..|a.rows|] == a.rows && r.0.rows[|a.rows|] == row
    ensures |r.1| == |b| + 1 && r.1[..|b|] == b && r.1[|b|] == rhs
  {
    (Matrix(a.width, a.rows + [row]), b + [rhs])
  }

  /** The first child: `-x[idx] <= -ceil(v)`, that is `x[idx] >= ceil(v)`. */
  function UpCut(a: Matrix, b: Vector, idx: nat, v: real): (r: (Matrix, Vector))
    requires idx < a.width
    ensures r.0.width == a.width && |r.0.rows| == |a.rows| + 1 && r.0.rows[..|a.rows|] == a.rows
    ensures |r.0.rows[|a.rows|]| == a.width
    ensures forall j :: 0 <= j < a.width ==> r.0.rows[|a.rows|][j] == if j == idx then -1.0 else 0.0
    ensures |r.1| == |b| + 1 && r.1[..|b|] == b && r.1[|b|] == -(Ceil(v) as real)
  {
    AppendRow(a, b, CutRow(a.width, idx, -1.0), (-Ceil(v)) as real)
  }

  /** The second child: `x[idx] <= floor(v)`. */
  function DownCut(a: Matrix, b: Vector, idx: nat, v: real): (r: (Matrix, Vector))
    requires idx < a.width
    ensures r.0.width == a.width && |r.0.rows| == |a.rows| + 1 && r.0.rows[..|a.rows|] == a.rows
    ensures |r.0.rows[|a.rows|]| == a.width
    ensures forall j :: 0 <= j < a.width ==> r.0.rows[|a.rows|][j] == if j == idx then 1.0 else 0.0
    ensures |r.1| == |b| + 1 && r.1[..|b|] == b && r.1[|b|] == v.Floor as real
  {
    AppendRow(a, b, CutRow(a.width, idx, 1.0), v.Floor as real)
  }

  /** A cut row picks out one coordinate of the point, scaled by its coefficient. */
  lemma {:induction false} DotCutRow(width: nat, idx: nat, coeff: real, y: Vector)
    requires idx < width && |y| == width
    ensures Dot(CutRow(width, idx, coeff), y) == coeff * y[idx]
  {
    var row := CutRow(width, idx, coeff);
    if idx == 0 {
      DotZeros(row[1..], y[1..]);
    } else {
      assert row[1..] == CutRow(width - 1, idx - 1, coeff);
      DotCutRow(width - 1, idx - 1, coeff, y[1..]);
    }
  }

  lemma {:induction false} DotZeros(u: Vector, y: Vector)
    requires |u| == |y| && forall j :: 0 <= j < |u| ==> u[j] == 0.0
    ensures Dot(u, y) == 0.0
  {
    if u != [] {
      DotZeros(u[1..], y[1..]);
    }
  }

  /** A point satisfies a constraint set with one more row iff it satisfies the old rows and the new one. */
  lemma SatisfiesAppend(a: Matrix, b: Vector, row: Vector, rhs: real, y: Vector)
    requires |row| == a.width
    ensures var (a', b') := AppendRow(a, b, row, rhs);
      Satisfies(a', b', y) <==> Satisfies(a, b, y) && |y| == a.width && Dot(row, y) <= rhs
  {
  }

  /** The first child's region is the parent's with `y[idx] >= ceil(v)`. */
  lemma UpCutRegion(a: Matrix, b: Vector, idx: nat, v: real, y: Vector)
    requires idx < a.width && idx < |y|
    ensures Satisfies(UpCut(a, b, idx, v).0, UpCut(a, b, idx, v).1, y)
        <==> Satisfies(a, b, y) && y[idx] >= Ceil(v) as real
  {
    var row := CutRow(a.width, idx, -1.0);
    var rhs := (-Ceil(v)) as real;
    assert UpCut(a, b, idx, v) == AppendRow(a, b, row, rhs);
    SatisfiesAppend(a, b, row, rhs, y);
    if |y| == a.width {
      DotCutRow(a.width, idx, -1.0, y);
      assert Dot(row, y) == -y[idx];
      assert Dot(row, y) <= rhs <==> y[idx] >= Ceil(v) as real;
    }
  }

  /** The second child's region is the parent's with `y[idx] <= floor(v)`. */
  lemma DownCutRegion(a: Matrix, b: Vector, idx: nat, v: real, y: Vector)
    requires idx < a.width && idx < |y|
    ensures Satisfies(DownCut(a, b, idx, v).0, DownCut(a, b, idx, v).1, y)
        <==> Satisfies(a, b, y) && y[idx] <= v.Floor as real
  {
    var row := CutRow(a.width, idx, 1.0);
    var rhs := v.Floor as real;
    assert DownCut(a, b, idx, v) == AppendRow(a, b, row, rhs);
    SatisfiesAppend(a, b, row, rhs, y);
    if |y| == a.width {
      DotCutRow(a.width, idx, 1.0, y);
      assert Dot(row, y) == y[idx];
    }
  }

  /**
   * Branching on a non-integer coordinate of the parent's relaxation point
   * loses no integer point and makes progress: the point itself lies in
   * neither child, and every point whose coordinate `idx` is an integer and
   * that lies in the parent lies in one of the two children.
   */
  lemma BranchSplitsRegion(a: Matrix, b: Vector, idx: nat, x: Vector, y: Vector)
    requires idx < a.width && idx < |x| && idx < |y|
    requires !IsInteger(x[idx])
    ensures x == y ==>
      && !Satisfies(UpCut(a, b, idx, x[idx]).0, UpCut(a, b, idx, x[idx]).1, y)
      && !Satisfies(DownCut(a, b, idx, x[idx]).0, DownCut(a, b, idx, x[idx]).1, y)
    ensures IsInteger(y[idx]) && Satisfies(a, b, y) ==>
      || Satisfies(UpCut(a, b, idx, x[idx]).0, UpCut(a, b, idx, x[idx]).1, y)
      || Satisfies(DownCut(a, b, idx, x[idx]).0, DownCut(a, b, idx, x[idx]).1, y)
  {
    var v := x[idx];
    UpCutRegion(a, b, idx, v, y);
    DownCutRegion(a, b, idx, v, y);
    assert v.Floor as real < v < Ceil(v) as real;
    if IsInteger(y[idx]) {
      var k := y[idx].Floor;
      assert k <= v.Floor || k >= v.Floor + 1;
      assert Ceil(v) == v.Floor + 1;
    }
  }

  /**
   * A constraint set that is a root set with zero or more cuts appended: the
   * root rows untouched, one right-hand side per added row, every added row a
   * `+e_i` or `-e_i` row and every added right-hand side an integer.
   */
  ghost predicate Extends(rootA: Matrix, rootB: Vector, a: Matrix, b: Vector)
  {
    && a.width == rootA.width
    && |rootA.rows| <= |a.rows| && a.rows[..|rootA.rows|] == rootA.rows
    && |rootB| <= |b| && b[..|rootB|] == rootB
    && |a.rows| - |rootA.rows| == |b| - |rootB|
    && (forall k :: |rootA.rows| <= k < |a.rows| ==> IsCutRow(a.rows[k], a.width))
    && (forall k :: |rootB| <= k < |b| ==> IsInteger(b[k]))
  }

  /**
   * Both children of a node that extends the root extend the root as well: the
   * parent's rows are kept and one `±e_idx` row with an integer right-hand side
   * is added.
   */
  lemma ChildrenExtend(rootA: Matrix, rootB: Vector, a: Matrix, b: Vector, idx: nat, v: real)
    requires Extends(rootA, rootB, a, b)
    requires idx < a.width
    ensures Extends(rootA, rootB, UpCut(a, b, idx, v).0, UpCut(a, b, idx, v).1)
    ensures Extends(rootA, rootB, DownCut(a, b, idx, v).0, DownCut(a, b, idx, v).1)
  {
  }

  // ---------------------------------------------------------------------------
  // Enqueueing the children

  /**
   * The children that go to the back of the queue, in order: only those whose
   * relaxation succeeded; when both did, the one with the strictly larger
   * objective first, and the second child first on a tie.
   */
  function Survivors(c1: Node, c2: Node): (r: seq<Node>)
    ensures forall k :: 0 <= k < |r| ==> r[k].res.success && (r[k] == c1 || r[k] == c2)
    ensures |r| == (if c1.res.success then 1 else 0) + (if c2.res.success then 1 else 0)
    ensures c1.res.success && !c2.res.success ==> r == [c1]
    ensures !c1.res.success && c2.res.success ==> r == [c2]
    ensures |r| == 2 ==> Value(r[0].res) >= Value(r[1].res) && {r[0], r[1]} == {c1, c2}
    ensures |r| == 2 && Value(c1.res) == Value(c2.res) ==> r == [c2, c1]
  {
    if !c1.res.success && c2.res.success then [c2]
    else if !c2.res.success && c1.res.success then [c1]
    else if c1.res.success && c2.res.success then
      if Value(c1.res) > Value(c2.res) then [c1, c2] else [c2, c1]
    else []
  }
}
