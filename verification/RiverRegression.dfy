/**
 The regression of the river propagation backtest: Gauss-Jordan elimination with partial pivoting,
 the least-squares fit on local and upstream change, and the fit on local change alone.
 Numbers are exact reals.
 */
module RiverRegression {
  import opened Wrappers

  const SINGULAR: real := 0.000000001

  // ---------- the linear solver ----------

  datatype Vector = Vector(x0: real, x1: real, x2: real)

  type Row = row: seq<real> | |row| == 4 witness [0.0, 0.0, 0.0, 0.0]

  const ZERO_ROW: Row := [0.0, 0.0, 0.0, 0.0]

  type Augmented = m: seq<Row> | |m| == 3
    witness [ZERO_ROW, ZERO_ROW, ZERO_ROW]

  // Left side minus right side of the equation that a row stands for.
  function Residual(row: Row, x: Vector): real {
    row[0] * x.x0 + row[1] * x.x1 + row[2] * x.x2 - row[3]
  }

  predicate Solves(m: Augmented, x: Vector) {
    Residual(m[0], x) == 0.0 && Residual(m[1], x) == 0.0 && Residual(m[2], x) == 0.0
  }

  function Abs(a: real): real { if a < 0.0 then -a else a }

  // The first row of column..row with the largest entry in the column.
  function Pivot(m: Augmented, column: nat, row: nat): (p: nat)
    requires column < row <= 3
    ensures column <= p < row
  {
    if row == column + 1 then column
    else
      var p := Pivot(m, column, row - 1);
      if Abs(m[row - 1][column]) > Abs(m[p][column]) then row - 1 else p
  }

  function Over(a: real, d: real): (r: real)
    requires d != 0.0
    ensures a == 0.0 ==> r == 0.0
    ensures a == d ==> r == 1.0
  {
    a / d
  }

  function Scaled(row: Row, d: real): Row
    requires d != 0.0
  {
    [Over(row[0], d), Over(row[1], d), Over(row[2], d), Over(row[3], d)]
  }

  function Less(a: real, factor: real, b: real): (r: real)
    ensures b == 0.0 ==> r == a
    ensures b == 1.0 && a == factor ==> r == 0.0
  {
    a - factor * b
  }

  function Minus(row: Row, factor: real, other: Row): Row {
    [Less(row[0], factor, other[0]), Less(row[1], factor, other[1]),
     Less(row[2], factor, other[2]), Less(row[3], factor, other[3])]
  }

  function Swapped(m: Augmented, column: nat, p: nat): Augmented
    requires column < 3 && p < 3
  {
    m[column := m[p]][p := m[column]]
  }

  function Eliminated(row: Row, column: nat, unit: Row): Row
    requires column < 3
  {
    Minus(row, row[column], unit)
  }

  // One column: pivot, swap, normalise, eliminate. None where the source throws.
  function Step(m: Augmented, column: nat): Option<Augmented>
    requires column < 3
  {
    var p := Pivot(m, column, 3);
    if Abs(m[p][column]) < SINGULAR then None
    else
      var swapped := Swapped(m, column, p);
      Some(Cleared(swapped, column, Scaled(swapped[column], swapped[column][column])))
  }

  // The normalised row in its place, every other row without its share of the column.
  function Cleared(m: Augmented, column: nat, unit: Row): Augmented
    requires column < 3
  {
    [if column == 0 then unit else Eliminated(m[0], column, unit),
     if column == 1 then unit else Eliminated(m[1], column, unit),
     if column == 2 then unit else Eliminated(m[2], column, unit)]
  }

  function Steps(m: Augmented, columns: nat): Option<Augmented>
    requires columns <= 3
  {
    if columns == 0 then Some(m)
    else
      var before :- Steps(m, columns - 1);
      Step(before, columns - 1)
  }

  function Solution(m: Augmented): Option<Vector> {
    var r :- Steps(m, 3);
    Some(Vector(r[0][3], r[1][3], r[2][3]))
  }

  // The columns before the current one hold the identity matrix.
  predicate Reduced(m: Augmented, columns: nat)
    requires columns <= 3
  {
    forall r, k :: 0 <= r < 3 && 0 <= k < columns ==> m[r][k] == if r == k then 1.0 else 0.0
  }

  method Normalise(row: Row, column: nat) returns (r: Row)
    requires column < 3 && row[column] != 0.0
    requires forall k :: 0 <= k < column ==> row[k] == 0.0
    ensures r == Scaled(row, row[column])
  {
    r := row;
    var divisor := row[column];
    for item := column to 4
      invariant |r| == 4
      invariant forall k :: 0 <= k < 4 ==> r[k] == if column <= k < item then Over(row[k], divisor) else row[k]
    {
      r := r[item := r[item] / divisor];
    }
  }

  method Subtract(row: Row, column: nat, unit: Row) returns (r: Row)
    requires column < 3
    requires forall k :: 0 <= k < column ==> unit[k] == 0.0
    ensures r == Eliminated(row, column, unit)
  {
    r := row;
    var factor := row[column];
    for item := column to 4
      invariant |r| == 4
      invariant forall k :: 0 <= k < 4 ==> r[k] == if column <= k < item then Less(row[k], factor, unit[k]) else row[k]
    {
      r := r[item := r[item] - factor * unit[item]];
    }
  }

  method FindPivot(m: Augmented, column: nat) returns (pivot: nat)
    requires column < 3
    ensures pivot == Pivot(m, column, 3)
  {
    pivot := column;
    for row := column + 1 to 3
      invariant pivot == Pivot(m, column, row)
    {
      if Abs(m[row][column]) > Abs(m[pivot][column]) {
        pivot := row;
      }
    }
  }

  method ClearColumn(m: Augmented, column: nat) returns (r: Augmented)
    requires column < 3
    requires forall k :: 0 <= k < column ==> m[column][k] == 0.0
    ensures r == Cleared(m, column, m[column])
  {
    hide Eliminated;
    r := m;
    for row := 0 to 3
      invariant r[column] == m[column]
      invariant forall k :: 0 <= k < 3 && k != column ==>
        r[k] == if k < row then Eliminated(m[k], column, m[column]) else m[k]
    {
      if row != column {
        var reduced := Subtract(r[row], column, m[column]);
        r := r[row := reduced];
      }
    }
  }

  // The elimination loop computes Solution: it returns and throws exactly where Solution does.
  method Solve3x3(matrix: seq<seq<real>>, vector: seq<real>) returns (x: Option<Vector>)
    requires |matrix| == 3 && |vector| == 3 && forall r :: 0 <= r < 3 ==> |matrix[r]| == 3
    ensures x == Solution(Augment(matrix, vector))
  {
    hide Augment, Cleared, Scaled, Reduced, Steps;
    var augmented := Augment(matrix, vector);
    StepsStart(augmented);
    for column := 0 to 3
      invariant Steps(Augment(matrix, vector), column) == Some(augmented)
      invariant Reduced(augmented, column)
    {
      ghost var before := augmented;
      var pivot := FindPivot(augmented, column);
      StepsMore(Augment(matrix, vector), column);
      if Abs(augmented[pivot][column]) < SINGULAR {
        StepsStop(Augment(matrix, vector), column + 1);
        return None;
      }
      augmented := Swapped(augmented, column, pivot);
      SwapReduces(before, column, pivot);
      PivotRow(augmented, column);
      var unit := Normalise(augmented[column], column);
      ClearIgnoresOwnRow(augmented, column, unit);
      augmented := ClearColumn(augmented[column := unit], column);
      StepReduces(before, column);
    }
    return Some(Vector(augmented[0][3], augmented[1][3], augmented[2][3]));
  }

  lemma {:induction false} StepsStart(m: Augmented)
    ensures Steps(m, 0) == Some(m) && Reduced(m, 0)
  {
  }

  lemma {:induction false} StepsMore(m: Augmented, columns: nat)
    requires columns < 3 && Steps(m, columns).Some?
    ensures Steps(m, columns + 1) == Step(Steps(m, columns).value, columns)
  {
  }

  lemma {:induction false} PivotRow(m: Augmented, column: nat)
    requires column < 3 && Reduced(m, column)
    ensures forall k :: 0 <= k < column ==> m[column][k] == 0.0
    ensures m[column][column] != 0.0 ==>
      && (forall k :: 0 <= k < column ==> Scaled(m[column], m[column][column])[k] == 0.0)
      && Scaled(m[column], m[column][column])[column] == 1.0
  {
    hide Over;
  }

  lemma {:induction false} ClearIgnoresOwnRow(m: Augmented, column: nat, unit: Row)
    requires column < 3
    ensures Cleared(m[column := unit], column, unit) == Cleared(m, column, unit)
  {
  }

  function Augment(matrix: seq<seq<real>>, vector: seq<real>): Augmented
    requires |matrix| == 3 && |vector| == 3 && forall r :: 0 <= r < 3 ==> |matrix[r]| == 3
  {
    [matrix[0] + [vector[0]], matrix[1] + [vector[1]], matrix[2] + [vector[2]]]
  }

  lemma {:induction false} StepsStop(m: Augmented, columns: nat)
    requires columns <= 3 && Steps(m, columns).None?
    ensures Steps(m, 3).None?
    decreases 3 - columns
  {
    hide Step;
    if columns < 3 {
      StepsStop(m, columns + 1);
    }
  }

  lemma {:induction false} SwapReduces(m: Augmented, column: nat, p: nat)
    requires column <= p < 3 && Reduced(m, column)
    ensures Reduced(Swapped(m, column, p), column)
  {
  }

  lemma {:induction false} ClearReduces(m: Augmented, column: nat, unit: Row)
    requires column < 3 && Reduced(m, column)
    requires unit[column] == 1.0 && forall k :: 0 <= k < column ==> unit[k] == 0.0
    ensures Reduced(Cleared(m, column, unit), column + 1)
  {
    hide Less;
    var c := Cleared(m, column, unit);
    forall r, k | 0 <= r < 3 && 0 <= k < column + 1
      ensures c[r][k] == if r == k then 1.0 else 0.0
    {
      if r != column {
        assert c[r][k] == Less(m[r][k], m[r][column], unit[k]);
      }
    }
  }

  lemma {:induction false} StepReduces(m: Augmented, column: nat)
    requires column < 3 && Reduced(m, column) && Step(m, column).Some?
    ensures Reduced(Step(m, column).value, column + 1)
  {
    hide Cleared, Swapped;
    var p := Pivot(m, column, 3);
    SwapReduces(m, column, p);
    var s := Swapped(m, column, p);
    assert s[column] == m[p] by {
      SwapColumn(m, column, p);
    }
    PivotRow(s, column);
    ClearReduces(s, column, Scaled(s[column], s[column][column]));
  }

  lemma {:induction false} SwapColumn(m: Augmented, column: nat, p: nat)
    requires column <= p < 3
    ensures Swapped(m, column, p)[column] == m[p]
  {
  }

  lemma {:induction false} OverBack(a: real, d: real)
    requires d != 0.0
    ensures a == d * Over(a, d)
  {
  }

  lemma {:induction false} TakeOut(d: real, a: real, x: real, product: real)
    requires product == d * a
    ensures product * x == d * (a * x)
  {
  }

  lemma {:induction false} ScaledResidual(row: Row, d: real, x: Vector)
    requires d != 0.0
    ensures Residual(row, x) == d * Residual(Scaled(row, d), x)
  {
    hide Over;
    var s := Scaled(row, d);
    OverBack(row[0], d);
    OverBack(row[1], d);
    OverBack(row[2], d);
    OverBack(row[3], d);
    TakeOut(d, s[0], x.x0, row[0]);
    TakeOut(d, s[1], x.x1, row[1]);
    TakeOut(d, s[2], x.x2, row[2]);
  }

  lemma {:induction false} MinusResidual(row: Row, factor: real, other: Row, x: Vector)
    ensures Residual(Minus(row, factor, other), x) == Residual(row, x) - factor * Residual(other, x)
  {
  }

  // A step keeps the set of solutions.
  lemma {:induction false} StepKeepsSolutions(m: Augmented, column: nat, x: Vector)
    requires column < 3 && Step(m, column).Some?
    ensures Solves(Step(m, column).value, x) <==> Solves(m, x)
  {
    hide Residual, Scaled, Minus;
    var p := Pivot(m, column, 3);
    var s := Swapped(m, column, p);
    var d := s[column][column];
    var unit := Scaled(s[column], d);
    assert Solves(s, x) <==> Solves(m, x);
    ScaledResidual(s[column], d, x);
    MinusResidual(s[0], s[0][column], unit, x);
    MinusResidual(s[1], s[1][column], unit, x);
    MinusResidual(s[2], s[2][column], unit, x);
  }

  lemma {:induction false} StepsKeepSolutions(m: Augmented, columns: nat, x: Vector)
    requires columns <= 3 && Steps(m, columns).Some?
    ensures Solves(Steps(m, columns).value, x) <==> Solves(m, x)
    ensures Reduced(Steps(m, columns).value, columns)
  {
    hide Solves, Step, Reduced;
    if columns == 0 {
      StepsStart(m);
    } else {
      StepsKeepSolutions(m, columns - 1, x);
      StepKeepsSolutions(Steps(m, columns - 1).value, columns - 1, x);
      StepReduces(Steps(m, columns - 1).value, columns - 1);
    }
  }

  // Whatever is returned solves the system, and nothing else does.
  lemma {:induction false} SolutionIsUnique(m: Augmented, x: Vector)
    requires Solution(m).Some?
    ensures Solves(m, x) <==> x == Solution(m).value
  {
    hide Steps;
    StepsKeepSolutions(m, 3, x);
    var r := Steps(m, 3).value;
    assert Residual(r[0], x) == x.x0 - r[0][3];
    assert Residual(r[1], x) == x.x1 - r[1][3];
    assert Residual(r[2], x) == x.x2 - r[2][3];
  }

  // A system with no solution or with several is always refused.
  lemma {:induction false} SingularIsRefused(m: Augmented, x: Vector, y: Vector)
    requires (x != y && Solves(m, x) && Solves(m, y)) || forall z :: !Solves(m, z)
    ensures Solution(m).None?
  {
    hide Steps, Solves, Solution;
    if Solution(m).Some? {
      SolutionIsUnique(m, x);
      SolutionIsUnique(m, y);
      SolutionIsUnique(m, Solution(m).value);
    }
  }

  // The threshold also refuses some regular systems.
  lemma {:induction false} RegularButRefused()
    ensures var tiny := 0.0000000001;
            var m: Augmented := [[tiny, 0.0, 0.0, tiny], [0.0, tiny, 0.0, tiny], [0.0, 0.0, tiny, tiny]];
            Solution(m).None? && forall x :: Solves(m, x) <==> x == Vector(1.0, 1.0, 1.0)
  {
    var tiny := 0.0000000001;
    var m: Augmented := [[tiny, 0.0, 0.0, tiny], [0.0, tiny, 0.0, tiny], [0.0, 0.0, tiny, tiny]];
    StepsStart(m);
    assert Step(m, 0).None?;
    StepsStop(m, 1);
    forall x: Vector
      ensures Solves(m, x) <==> x == Vector(1.0, 1.0, 1.0)
    {
      assert Residual(m[0], x) == tiny * x.x0 - tiny;
      assert Residual(m[1], x) == tiny * x.x1 - tiny;
      assert Residual(m[2], x) == tiny * x.x2 - tiny;
    }
  }

  // ---------- the least-squares fit ----------

  // One joined day: downstream change, upstream change, downstream change of the next day.
  datatype Point = Point(local: real, upstream: real, target: real)

  datatype Feature = One | Local | Upstream | Target

  function Of(p: Point, f: Feature): real {
    match f
    case One => 1.0
    case Local => p.local
    case Upstream => p.upstream
    case Target => p.target
  }

  function Moment(rows: seq<Point>, f: Feature, g: Feature): real {
    if |rows| == 0 then 0.0
    else Moment(rows[..|rows| - 1], f, g) + Of(rows[|rows| - 1], f) * Of(rows[|rows| - 1], g)
  }

  function NormalRow(rows: seq<Point>, f: Feature): Row {
    [Moment(rows, f, One), Moment(rows, f, Local), Moment(rows, f, Upstream), Moment(rows, f, Target)]
  }

  function NormalEquations(rows: seq<Point>): Augmented {
    [NormalRow(rows, One), NormalRow(rows, Local), NormalRow(rows, Upstream)]
  }

  function Fit(rows: seq<Point>): Option<Vector> { Solution(NormalEquations(rows)) }

  lemma {:induction false} MomentSymmetric(rows: seq<Point>, f: Feature, g: Feature)
    ensures Moment(rows, f, g) == Moment(rows, g, f)
  {
    if |rows| > 0 {
      MomentSymmetric(rows[..|rows| - 1], f, g);
    }
  }

  lemma {:induction false} MomentStep(rows: seq<Point>, i: nat, f: Feature, g: Feature)
    requires i < |rows|
    ensures Moment(rows[..i + 1], f, g) == Moment(rows[..i], f, g) + Of(rows[i], f) * Of(rows[i], g)
  {
    assert rows[..i + 1][..i] == rows[..i];
  }

  method FitRegression(rows: seq<Point>) returns (fit: Option<Vector>)
    ensures fit == Fit(rows)
  {
    hide Moment, Solution, Augment;
    var n, sumLocal, sumUpstream, sumTarget := 0.0, 0.0, 0.0, 0.0;
    var sumLocalSquared, sumUpstreamSquared, sumLocalUpstream := 0.0, 0.0, 0.0;
    var sumLocalTarget, sumUpstreamTarget := 0.0, 0.0;
    NoMoments();
    for i := 0 to |rows|
      invariant n == Moment(rows[..i], One, One)
      invariant sumLocal == Moment(rows[..i], One, Local)
      invariant sumUpstream == Moment(rows[..i], One, Upstream)
      invariant sumTarget == Moment(rows[..i], One, Target)
      invariant sumLocalSquared == Moment(rows[..i], Local, Local)
      invariant sumUpstreamSquared == Moment(rows[..i], Upstream, Upstream)
      invariant sumLocalUpstream == Moment(rows[..i], Local, Upstream)
      invariant sumLocalTarget == Moment(rows[..i], Local, Target)
      invariant sumUpstreamTarget == Moment(rows[..i], Upstream, Target)
    {
      var local, upstream, target := rows[i].local, rows[i].upstream, rows[i].target;
      MomentStep(rows, i, One, One);
      MomentStep(rows, i, One, Local);
      MomentStep(rows, i, One, Upstream);
      MomentStep(rows, i, One, Target);
      MomentStep(rows, i, Local, Local);
      MomentStep(rows, i, Upstream, Upstream);
      MomentStep(rows, i, Local, Upstream);
      MomentStep(rows, i, Local, Target);
      MomentStep(rows, i, Upstream, Target);
      n := n + 1.0;
      sumLocal := sumLocal + local;
      sumUpstream := sumUpstream + upstream;
      sumTarget := sumTarget + target;
      sumLocalSquared := sumLocalSquared + local * local;
      sumUpstreamSquared := sumUpstreamSquared + upstream * upstream;
      sumLocalUpstream := sumLocalUpstream + local * upstream;
      sumLocalTarget := sumLocalTarget + local * target;
      sumUpstreamTarget := sumUpstreamTarget + upstream * target;
    }
    assert rows[..|rows|] == rows;
    MomentSymmetric(rows, One, Local);
    MomentSymmetric(rows, One, Upstream);
    MomentSymmetric(rows, Local, Upstream);
    var matrix := [[n, sumLocal, sumUpstream],
                   [sumLocal, sumLocalSquared, sumLocalUpstream],
                   [sumUpstream, sumLocalUpstream, sumUpstreamSquared]];
    var vector := [sumTarget, sumLocalTarget, sumUpstreamTarget];
    AugmentRows(matrix, vector);
    assert Augment(matrix, vector) == NormalEquations(rows);
    fit := Solve3x3(matrix, vector);
  }

  lemma {:induction false} NoMoments()
    ensures forall f, g :: Moment([], f, g) == 0.0
  {
  }

  lemma {:induction false} AugmentRows(matrix: seq<seq<real>>, vector: seq<real>)
    requires |matrix| == 3 && |vector| == 3 && forall r :: 0 <= r < 3 ==> |matrix[r]| == 3
    ensures forall r :: 0 <= r < 3 ==>
      Augment(matrix, vector)[r] == [matrix[r][0], matrix[r][1], matrix[r][2], vector[r]]
  {
  }

  // ---------- squared error ----------

  function Mul(a: real, b: real): real { a * b }

  function Square(v: real): real { Mul(v, v) }

  lemma {:induction false} MulPositive(a: real, b: real)
    requires a > 0.0 && b > 0.0
    ensures Mul(a, b) > 0.0
  {
  }

  lemma {:induction false} MulNegated(a: real, b: real)
    ensures Mul(a, b) == Mul(-a, -b)
    ensures Mul(0.0, b) == 0.0
  {
  }

  lemma {:induction false} SquareIsPositive(v: real)
    ensures Square(v) >= 0.0 && (v != 0.0 ==> Square(v) > 0.0)
  {
    hide Mul;
    MulNegated(v, v);
    if v > 0.0 {
      MulPositive(v, v);
    } else if v < 0.0 {
      MulPositive(-v, -v);
    }
  }

  function Linear(p: Point, q: Vector): real { q.x0 + q.x1 * p.local + q.x2 * p.upstream }

  function Error(p: Point, q: Vector): real { p.target - Linear(p, q) }

  function SquaredError(rows: seq<Point>, q: Vector): real {
    if |rows| == 0 then 0.0
    else SquaredError(rows[..|rows| - 1], q) + Square(Error(rows[|rows| - 1], q))
  }

  function Gradient(rows: seq<Point>, q: Vector, f: Feature): real {
    if |rows| == 0 then 0.0
    else Gradient(rows[..|rows| - 1], q, f) + Mul(Of(rows[|rows| - 1], f), Error(rows[|rows| - 1], q))
  }

  // What moving the coefficients by h adds to the squared error, at second order.
  function Spread(rows: seq<Point>, h: Vector): real {
    if |rows| == 0 then 0.0
    else Spread(rows[..|rows| - 1], h) + Square(Linear(rows[|rows| - 1], h))
  }

  function Add(q: Vector, h: Vector): Vector { Vector(q.x0 + h.x0, q.x1 + h.x1, q.x2 + h.x2) }

  function Weighted(a0: real, a1: real, a2: real, q: Vector): real { a0 * q.x0 + a1 * q.x1 + a2 * q.x2 }

  // Half of what it adds at first order, with the sign turned.
  function Along(rows: seq<Point>, q: Vector, h: Vector): real {
    Weighted(Gradient(rows, q, One), Gradient(rows, q, Local), Gradient(rows, q, Upstream), h)
  }

  lemma {:induction false} WeightedSum(m0: real, m1: real, m2: real, q: Vector, a0: real, a1: real, a2: real)
    ensures Weighted(m0 + a0, m1 + a1, m2 + a2, q) == Weighted(m0, m1, m2, q) + Weighted(a0, a1, a2, q)
  {
  }

  lemma {:induction false} ErrorMoves(p: Point, q: Vector, h: Vector)
    ensures Error(p, Add(q, h)) == Error(p, q) - Linear(p, h)
  {
  }

  lemma {:induction false} SquareOfDifference(a: real, b: real)
    ensures Square(a - b) == Square(a) - 2.0 * Mul(a, b) + Square(b)
  {
  }

  lemma {:induction false} LinearTimes(p: Point, h: Vector, e: real)
    ensures Mul(e, Linear(p, h)) == Weighted(Mul(Of(p, One), e), Mul(Of(p, Local), e), Mul(Of(p, Upstream), e), h)
  {
  }

  lemma {:induction false} NothingAlong(h: Vector)
    ensures Weighted(0.0, 0.0, 0.0, h) == 0.0
    ensures forall g :: h.x2 == 0.0 ==> Weighted(0.0, 0.0, g, h) == 0.0
  {
  }

  lemma {:induction false} Expansion(rows: seq<Point>, q: Vector, h: Vector)
    ensures SquaredError(rows, Add(q, h)) == SquaredError(rows, q) - 2.0 * Along(rows, q, h) + Spread(rows, h)
  {
    hide Error, Linear, Of, Square, Mul, Weighted;
    if |rows| == 0 {
      NothingAlong(h);
    } else {
      var front, p := rows[..|rows| - 1], rows[|rows| - 1];
      Expansion(front, q, h);
      ErrorMoves(p, q, h);
      SquareOfDifference(Error(p, q), Linear(p, h));
      var e := Error(p, q);
      LinearTimes(p, h, e);
      WeightedSum(Gradient(front, q, One), Gradient(front, q, Local), Gradient(front, q, Upstream), h,
                  Mul(Of(p, One), e), Mul(Of(p, Local), e), Mul(Of(p, Upstream), e));
    }
  }

  function Times(p: Point, f: Feature, g: Feature): real { Of(p, f) * Of(p, g) }

  // The gradient is what the normal equation leaves over.
  lemma {:induction false} GradientIsResidual(rows: seq<Point>, q: Vector, f: Feature)
    ensures Gradient(rows, q, f) == -Residual(NormalRow(rows, f), q)
  {
    hide Of, Moment, Gradient, Error;
    GradientIsLeftOver(rows, q, f);
  }

  lemma {:induction false} GradientIsLeftOver(rows: seq<Point>, q: Vector, f: Feature)
    ensures Gradient(rows, q, f)
            == Moment(rows, f, Target)
               - Weighted(Moment(rows, f, One), Moment(rows, f, Local), Moment(rows, f, Upstream), q)
  {
    hide Of, Moment, Gradient, Error, Weighted, Times, Mul;
    if |rows| == 0 {
      NoGradient(q, f);
    } else {
      var front, p := rows[..|rows| - 1], rows[|rows| - 1];
      GradientIsLeftOver(front, q, f);
      PointLeftOver(p, q, f);
      MomentLast(rows, f, One);
      MomentLast(rows, f, Local);
      MomentLast(rows, f, Upstream);
      MomentLast(rows, f, Target);
      GradientLast(rows, q, f);
      WeightedSum(Moment(front, f, One), Moment(front, f, Local), Moment(front, f, Upstream), q,
                  Times(p, f, One), Times(p, f, Local), Times(p, f, Upstream));
    }
  }

  lemma {:induction false} NoGradient(q: Vector, f: Feature)
    ensures Gradient([], q, f) == Moment([], f, Target)
            - Weighted(Moment([], f, One), Moment([], f, Local), Moment([], f, Upstream), q)
  {
  }

  lemma {:induction false} MomentLast(rows: seq<Point>, f: Feature, g: Feature)
    requires |rows| > 0
    ensures Moment(rows, f, g) == Moment(rows[..|rows| - 1], f, g) + Times(rows[|rows| - 1], f, g)
  {
  }

  lemma {:induction false} GradientLast(rows: seq<Point>, q: Vector, f: Feature)
    requires |rows| > 0
    ensures Gradient(rows, q, f)
            == Gradient(rows[..|rows| - 1], q, f) + Mul(Of(rows[|rows| - 1], f), Error(rows[|rows| - 1], q))
  {
  }

  lemma {:induction false} PointLeftOver(p: Point, q: Vector, f: Feature)
    ensures Mul(Of(p, f), Error(p, q))
            == Times(p, f, Target) - Weighted(Times(p, f, One), Times(p, f, Local), Times(p, f, Upstream), q)
  {
    var a := Of(p, f);
    assert a * (p.local * q.x1) == a * p.local * q.x1;
    assert a * (p.upstream * q.x2) == a * p.upstream * q.x2;
  }

  // ---------- optimality ----------

  lemma {:induction false} SpreadIsPositive(rows: seq<Point>, h: Vector)
    ensures Spread(rows, h) >= 0.0
  {
    hide Square;
    if |rows| > 0 {
      SpreadIsPositive(rows[..|rows| - 1], h);
      SquareIsPositive(Linear(rows[|rows| - 1], h));
    }
  }

  lemma {:induction false} NoSpread(rows: seq<Point>, h: Vector)
    requires Spread(rows, h) == 0.0
    ensures forall p :: p in rows ==> Linear(p, h) == 0.0
  {
    hide Linear, Square;
    if |rows| > 0 {
      var front, last := rows[..|rows| - 1], rows[|rows| - 1];
      var v := Linear(last, h);
      SpreadIsPositive(front, h);
      SquareIsPositive(v);
      NoSpread(front, h);
      assert rows == front + [last];
    }
  }

  lemma {:induction false} SameErrors(rows: seq<Point>, q: Vector, h: Vector, f: Feature)
    requires forall p :: p in rows ==> Linear(p, h) == 0.0
    ensures Gradient(rows, Add(q, h), f) == Gradient(rows, q, f)
  {
    hide Linear, Error, Mul;
    if |rows| > 0 {
      ErrorMoves(rows[|rows| - 1], q, h);
      SameErrors(rows[..|rows| - 1], q, h, f);
    }
  }

  lemma {:induction false} SolvesGradient(rows: seq<Point>, q: Vector)
    ensures Solves(NormalEquations(rows), q) <==>
            Gradient(rows, q, One) == 0.0 && Gradient(rows, q, Local) == 0.0 && Gradient(rows, q, Upstream) == 0.0
  {
    hide Gradient, Residual, NormalRow;
    GradientIsResidual(rows, q, One);
    GradientIsResidual(rows, q, Local);
    GradientIsResidual(rows, q, Upstream);
  }

  function Difference(q: Vector, r: Vector): Vector { Vector(q.x0 - r.x0, q.x1 - r.x1, q.x2 - r.x2) }

  // The fit has the least squared error of all coefficient triples, and is the only one to reach it.
  lemma {:induction false} FitIsOptimal(rows: seq<Point>, q: Vector)
    requires Fit(rows).Some?
    ensures SquaredError(rows, Fit(rows).value) <= SquaredError(rows, q)
    ensures SquaredError(rows, Fit(rows).value) == SquaredError(rows, q) ==> q == Fit(rows).value
  {
    hide Solution, Gradient, SquaredError, Spread, NormalEquations, Solves, Weighted;
    var fit := Fit(rows).value;
    var h := Difference(q, fit);
    assert q == Add(fit, h);
    SolutionIsUnique(NormalEquations(rows), fit);
    SolvesGradient(rows, fit);
    NothingAlong(h);
    Expansion(rows, fit, h);
    SpreadIsPositive(rows, h);
    if SquaredError(rows, q) == SquaredError(rows, fit) {
      NoSpread(rows, h);
      SameErrors(rows, fit, h, One);
      SameErrors(rows, fit, h, Local);
      SameErrors(rows, fit, h, Upstream);
      SolvesGradient(rows, q);
      SolutionIsUnique(NormalEquations(rows), q);
    }
  }

  // Days on which some combination of the three terms is always zero are refused:
  // no days at all, fewer than three, or upstream change that follows local change.
  lemma {:induction false} CollinearIsRefused(rows: seq<Point>, h: Vector)
    requires h != Vector(0.0, 0.0, 0.0) && forall p :: p in rows ==> Linear(p, h) == 0.0
    ensures Fit(rows).None?
  {
    hide Solution, Gradient, SquaredError, Linear, NormalEquations, Solves;
    if Fit(rows).Some? {
      var fit := Fit(rows).value;
      SameErrors(rows, fit, h, One);
      SameErrors(rows, fit, h, Local);
      SameErrors(rows, fit, h, Upstream);
      SolvesGradient(rows, fit);
      SolvesGradient(rows, Add(fit, h));
      SolutionIsUnique(NormalEquations(rows), fit);
      SolutionIsUnique(NormalEquations(rows), Add(fit, h));
    }
  }

  // ---------- the fit on local change alone ----------

  function Covariance(rows: seq<Point>, meanLocal: real, meanTarget: real): real {
    if |rows| == 0 then 0.0
    else
      var p := rows[|rows| - 1];
      Covariance(rows[..|rows| - 1], meanLocal, meanTarget) + (p.local - meanLocal) * (p.target - meanTarget)
  }

  function Variance(rows: seq<Point>, meanLocal: real): real {
    if |rows| == 0 then 0.0
    else
      var p := rows[|rows| - 1];
      Variance(rows[..|rows| - 1], meanLocal) + Square(p.local - meanLocal)
  }

  function Mean(rows: seq<Point>, f: Feature): real
    requires |rows| > 0
  {
    Moment(rows, One, f) / |rows| as real
  }

  function LocalWeight(covariance: real, variance: real): real {
    if variance > 0.0 then covariance / variance else 0.0
  }

  // The line through the means with the given slope.
  function Through(meanLocal: real, meanTarget: real, weight: real): Vector {
    Vector(meanTarget - weight * meanLocal, weight, 0.0)
  }

  // None stands for the NaN that the source computes from no rows at all.
  function LocalFit(rows: seq<Point>): Option<Vector> {
    if |rows| == 0 then None
    else
      var meanLocal, meanTarget := Mean(rows, Local), Mean(rows, Target);
      var weight := LocalWeight(Covariance(rows, meanLocal, meanTarget), Variance(rows, meanLocal));
      Some(Through(meanLocal, meanTarget, weight))
  }

  // Without variance in the local changes, or none at all, the slope is zero and the line is the mean.
  lemma {:induction false} NoVarianceNoSlope(rows: seq<Point>)
    requires |rows| > 0 && Variance(rows, Mean(rows, Local)) <= 0.0
    ensures LocalFit(rows) == Some(Vector(Mean(rows, Target), 0.0, 0.0))
  {
    hide Variance, Mean, Covariance;
    assert 0.0 * Mean(rows, Local) == 0.0;
  }

  method FitLocalOnlyRegression(rows: seq<Point>) returns (fit: Option<Vector>)
    ensures fit == LocalFit(rows)
  {
    hide Moment, Covariance, Variance, Through;
    if |rows| == 0 {
      return None;
    }
    NoMoments();
    var localSum, targetSum := 0.0, 0.0;
    for i := 0 to |rows|
      invariant localSum == Moment(rows[..i], One, Local)
    {
      MomentStep(rows, i, One, Local);
      localSum := localSum + rows[i].local;
    }
    for i := 0 to |rows|
      invariant targetSum == Moment(rows[..i], One, Target)
    {
      MomentStep(rows, i, One, Target);
      targetSum := targetSum + rows[i].target;
    }
    assert rows[..|rows|] == rows;
    var meanLocal, meanTarget := localSum / |rows| as real, targetSum / |rows| as real;
    var covariance, variance := CentredSums(rows, meanLocal, meanTarget);
    var weight := if variance > 0.0 then covariance / variance else 0.0;
    return Some(Through(meanLocal, meanTarget, weight));
  }

  method CentredSums(rows: seq<Point>, meanLocal: real, meanTarget: real) returns (covariance: real, variance: real)
    ensures covariance == Covariance(rows, meanLocal, meanTarget) && variance == Variance(rows, meanLocal)
  {
    covariance, variance := 0.0, 0.0;
    for i := 0 to |rows|
      invariant covariance == Covariance(rows[..i], meanLocal, meanTarget)
      invariant variance == Variance(rows[..i], meanLocal)
    {
      assert rows[..i + 1][..i] == rows[..i];
      var localCentred := rows[i].local - meanLocal;
      covariance := covariance + localCentred * (rows[i].target - meanTarget);
      variance := variance + localCentred * localCentred;
    }
    assert rows[..|rows|] == rows;
  }

  lemma {:induction false} Centred(a: real, b: real, x: real, y: real, n: int, xs: real, ys: real, xy: real)
    ensures (x - a) * (y - b) + (xy - a * ys - b * xs + n as real * (a * b))
            == (xy + x * y) - a * (ys + y) - b * (xs + x) + (n + 1) as real * (a * b)
  {
    assert (n + 1) as real == n as real + 1.0;
  }

  lemma {:induction false} CovarianceMoments(rows: seq<Point>, a: real, b: real)
    ensures Covariance(rows, a, b) == AroundMeans(|rows| as real, a, b, Moment(rows, One, Local),
                                                  Moment(rows, One, Target), Moment(rows, Local, Target))
  {
    hide Moment;
    if |rows| == 0 {
      NoMoments();
    } else {
      var front, p := rows[..|rows| - 1], rows[|rows| - 1];
      CovarianceMoments(front, a, b);
      MomentLast(rows, Local, Target);
      MomentLast(rows, One, Target);
      MomentLast(rows, One, Local);
      Centred(a, b, p.local, p.target, |front|,
              Moment(front, One, Local), Moment(front, One, Target), Moment(front, Local, Target));
    }
  }

  lemma {:induction false} VarianceMoments(rows: seq<Point>, a: real)
    ensures Variance(rows, a) == AroundMeans(|rows| as real, a, a, Moment(rows, One, Local),
                                             Moment(rows, One, Local), Moment(rows, Local, Local))
  {
    hide Moment;
    if |rows| == 0 {
      NoMoments();
    } else {
      var front, p := rows[..|rows| - 1], rows[|rows| - 1];
      VarianceMoments(front, a);
      MomentLast(rows, Local, Local);
      MomentLast(rows, One, Local);
      Centred(a, a, p.local, p.local, |front|,
              Moment(front, One, Local), Moment(front, One, Local), Moment(front, Local, Local));
    }
  }

  lemma {:induction false} CountMoment(rows: seq<Point>)
    ensures Moment(rows, One, One) == |rows| as real
  {
    if |rows| > 0 {
      CountMoment(rows[..|rows| - 1]);
    }
  }

  lemma {:induction false} VarianceIsPositive(rows: seq<Point>, a: real)
    ensures Variance(rows, a) >= 0.0
  {
    hide Square;
    if |rows| > 0 {
      VarianceIsPositive(rows[..|rows| - 1], a);
      SquareIsPositive(rows[|rows| - 1].local - a);
    }
  }

  // Without variance there is no covariance either.
  lemma {:induction false} NoVariance(rows: seq<Point>, a: real, b: real)
    requires Variance(rows, a) == 0.0
    ensures Covariance(rows, a, b) == 0.0
  {
    hide Square;
    if |rows| > 0 {
      VarianceIsPositive(rows[..|rows| - 1], a);
      SquareIsPositive(rows[|rows| - 1].local - a);
      assert rows[|rows| - 1].local - a == 0.0;
      NoVariance(rows[..|rows| - 1], a, b);
    }
  }

  lemma {:induction false} MeanTimesCount(rows: seq<Point>, f: Feature)
    requires |rows| > 0
    ensures Mul(|rows| as real, Mean(rows, f)) == Moment(rows, One, f)
  {
    hide Moment;
  }

  // At the means, whatever the slope, the errors cancel out.
  lemma {:induction false} ThroughMeans(n: real, a: real, b: real, weight: real, xs: real, ys: real)
    requires xs == Mul(n, a) && ys == Mul(n, b)
    ensures ys - Weighted(n, xs, 0.0, Through(a, b, weight)) == 0.0
  {
  }

  // The slope's own equation, with the moments written around the means.
  lemma {:induction false} SlopeEquation(n: real, a: real, b: real, weight: real, xs: real, ys: real, xx: real,
      xy: real)
    requires xs == Mul(n, a) && ys == Mul(n, b)
    ensures xy - Weighted(xs, xx, 0.0, Through(a, b, weight))
            == AroundMeans(n, a, b, xs, ys, xy) - Mul(weight, AroundMeans(n, a, a, xs, xs, xx))
  {
  }

  // A sum of products, re-centred at a and b, out of the plain sums.
  function AroundMeans(n: real, a: real, b: real, xs: real, ys: real, xy: real): real {
    xy - a * ys - b * xs + n * (a * b)
  }

  lemma {:induction false} LocalOnly(a0: real, a1: real, a2: real, q: Vector)
    requires q.x2 == 0.0
    ensures Weighted(a0, a1, a2, q) == Weighted(a0, a1, 0.0, q)
  {
  }

  lemma {:induction false} WeightCancels(covariance: real, variance: real)
    requires variance >= 0.0 && (variance == 0.0 ==> covariance == 0.0)
    ensures covariance - Mul(LocalWeight(covariance, variance), variance) == 0.0
  {
  }

  lemma {:induction false} ThroughIsFlat(a: real, b: real, weight: real)
    ensures Through(a, b, weight).x2 == 0.0
  {
  }

  lemma {:induction false} LocalIntercept(rows: seq<Point>, weight: real)
    requires |rows| > 0
    ensures Gradient(rows, Through(Mean(rows, Local), Mean(rows, Target), weight), One) == 0.0
  {
    hide *;
    var n, a, b := |rows| as real, Mean(rows, Local), Mean(rows, Target);
    var fit := Through(a, b, weight);
    var xs := Moment(rows, One, Local);
    MeanTimesCount(rows, Local);
    MeanTimesCount(rows, Target);
    CountMoment(rows);
    GradientIsLeftOver(rows, fit, One);
    ThroughIsFlat(a, b, weight);
    LocalOnly(n, xs, Moment(rows, One, Upstream), fit);
    ThroughMeans(n, a, b, weight, xs, Moment(rows, One, Target));
  }

  lemma {:induction false} LocalSlope(rows: seq<Point>)
    requires |rows| > 0
    ensures var a, b := Mean(rows, Local), Mean(rows, Target);
            Gradient(rows, Through(a, b, LocalWeight(Covariance(rows, a, b), Variance(rows, a))), Local) == 0.0
  {
    hide *;
    var n, a, b := |rows| as real, Mean(rows, Local), Mean(rows, Target);
    var covariance, variance := Covariance(rows, a, b), Variance(rows, a);
    var weight := LocalWeight(covariance, variance);
    var fit := Through(a, b, weight);
    var xs, ys := Moment(rows, One, Local), Moment(rows, One, Target);
    var xx, xy := Moment(rows, Local, Local), Moment(rows, Local, Target);
    MeanTimesCount(rows, Local);
    MeanTimesCount(rows, Target);
    MomentSymmetric(rows, Local, One);
    GradientIsLeftOver(rows, fit, Local);
    ThroughIsFlat(a, b, weight);
    LocalOnly(xs, xx, Moment(rows, Local, Upstream), fit);
    SlopeEquation(n, a, b, weight, xs, ys, xx, xy);
    CovarianceMoments(rows, a, b);
    VarianceMoments(rows, a);
    VarianceIsPositive(rows, a);
    if variance == 0.0 {
      NoVariance(rows, a, b);
    }
    WeightCancels(covariance, variance);
  }

  // Among all models without the upstream term the local fit has the least squared error,
  // also when local change never varies.
  lemma {:induction false} LocalFitIsOptimal(rows: seq<Point>, intercept: real, weight: real)
    requires LocalFit(rows).Some?
    ensures SquaredError(rows, LocalFit(rows).value) <= SquaredError(rows, Vector(intercept, weight, 0.0))
  {
    hide Gradient, SquaredError, Spread, Covariance, Variance, Mean, LocalWeight, Weighted;
    var fit, q := LocalFit(rows).value, Vector(intercept, weight, 0.0);
    var h := Difference(q, fit);
    assert q == Add(fit, h);
    LocalIntercept(rows, fit.x1);
    LocalSlope(rows);
    NothingAlong(h);
    Expansion(rows, fit, h);
    SpreadIsPositive(rows, h);
  }

  // Adding the upstream term never makes the training error worse.
  lemma {:induction false} UpstreamTermHelps(rows: seq<Point>)
    requires Fit(rows).Some?
    ensures LocalFit(rows).Some?
    ensures SquaredError(rows, Fit(rows).value) <= SquaredError(rows, LocalFit(rows).value)
  {
    hide Fit, SquaredError;
    if |rows| == 0 {
      CollinearIsRefused(rows, Vector(1.0, 0.0, 0.0));
    } else {
      FitIsOptimal(rows, LocalFit(rows).value);
    }
  }
}
