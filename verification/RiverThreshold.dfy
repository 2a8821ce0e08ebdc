/**
 When the solver of the river propagation backtest returns: its pivot threshold, said of the
 matrix that is given to it.
 */
module RiverThreshold {
  import opened Wrappers
  import opened RiverRegression

  // The determinant of the first two columns' rows p and r, or of columns 0 and k.
  function Cross(p: Row, r: Row, k: nat): real
    requires k < 4
  {
    p[0] * r[k] - r[0] * p[k]
  }

  function Determinant(a0: real, a1: real, a2: real, b0: real, b1: real, b2: real, c0: real, c1: real, c2: real): real {
    a0 * (b1 * c2 - b2 * c1) - a1 * (b0 * c2 - b2 * c0) + a2 * (b0 * c1 - b1 * c0)
  }

  function RowsDet(a: Row, b: Row, c: Row): real { Determinant(a[0], a[1], a[2], b[0], b[1], b[2], c[0], c[1], c[2]) }

  function Det(m: Augmented): real { RowsDet(m[0], m[1], m[2]) }

  // The minor of two rows in the last two columns.
  function Lower(e: Row, f: Row): real { Minor(e[1], e[2], f[1], f[2]) }

  function Minor(a: real, b: real, c: real, d: real): real { a * d - b * c }

  function Greater(a: real, b: real): real { if a < b then b else a }

  // The first row whose entry in column 0 is greatest.
  predicate FirstGreatest(m: Augmented, p: nat) {
    && p < 3
    && (forall r :: 0 <= r < 3 ==> Abs(m[r][0]) <= Abs(m[p][0]))
    && (forall r :: 0 <= r < p ==> Abs(m[r][0]) < Abs(m[p][0]))
  }

  // The greatest of the two minors that row p forms with the other rows in columns 0 and 1.
  function GreatestMinor(m: Augmented, p: nat): real
    requires p < 3
  {
    Greater(Abs(Cross(m[p], m[if p == 0 then 1 else 0], 1)), Abs(Cross(m[p], m[if p == 2 then 1 else 2], 1)))
  }

  // The exact condition: the greatest entry of column 0, the greatest minor relative to it and the
  // determinant relative to that minor all reach the threshold.
  predicate Passes(m: Augmented, p: nat)
    requires p < 3
  {
    && Abs(m[p][0]) >= 0.000000001
    && GreatestMinor(m, p) >= Mul(0.000000001, Abs(m[p][0]))
    && Abs(Det(m)) >= Mul(0.000000001, GreatestMinor(m, p))
  }

  lemma {:induction false} PivotIsFirstGreatest(m: Augmented)
    ensures FirstGreatest(m, Pivot(m, 0, 3))
    ensures forall p :: FirstGreatest(m, p) ==> p == Pivot(m, 0, 3)
  {
    var p2 := Pivot(m, 0, 2);
    assert Pivot(m, 0, 1) == 0;
  }

  // ---------- products ----------

  lemma {:induction false} AbsOfProduct(a: real, b: real)
    ensures Abs(Mul(a, b)) == Mul(Abs(a), Abs(b))
  {
    hide Mul;
    MulNegated(a, b);
    MulNegated(-a, b);
    MulSign(a, b);
    MulSign(-a, b);
    MulSign(a, -b);
    MulSign(-a, -b);
  }

  lemma {:induction false} MulSign(a: real, b: real)
    ensures a >= 0.0 && b >= 0.0 ==> Mul(a, b) >= 0.0
    ensures Mul(-a, b) == -Mul(a, b) && Mul(a, -b) == -Mul(a, b) && Mul(a, b) == Mul(b, a)
  {
  }

  lemma {:induction false} MulKeepsOrder(a: real, b: real, c: real)
    requires c > 0.0
    ensures a <= b <==> Mul(a, c) <= Mul(b, c)
  {
    hide Mul;
    if a < b {
      MulPositive(b - a, c);
    } else if b < a {
      MulPositive(a - b, c);
    }
    MulDifference(a, b, c);
  }

  lemma {:induction false} MulDifference(a: real, b: real, c: real)
    ensures Mul(b - a, c) == Mul(b, c) - Mul(a, c)
    ensures Mul(a - b, c) == Mul(a, c) - Mul(b, c)
  {
  }

  lemma {:induction false} MulRegroup(a: real, b: real, c: real)
    ensures Mul(Mul(a, b), c) == Mul(a, Mul(b, c)) && Mul(a, b) == Mul(b, a)
  {
  }

  // ---------- elimination and minors ----------

  // Below a pivot row (d, d u1, d u2), elimination leaves the minors over d.
  lemma {:induction false} MinorOfEliminated(d: real, u: real, q0: real, q: real)
    ensures d * (q + q0 * u) - q0 * (d * u) == Mul(d, q)
  {
  }

  lemma {:induction false} DeterminantOfEliminated(d: real, u1: real, u2: real,
                                                   q0: real, q1: real, q2: real, r0: real, r1: real, r2: real)
    ensures Determinant(d, d * u1, d * u2, q0, q1 + q0 * u1, q2 + q0 * u2, r0, r1 + r0 * u1, r2 + r0 * u2)
            == Mul(d, Minor(q1, q2, r1, r2))
  {
    var x1, x2, y1, y2 := q0 * u1, q0 * u2, r0 * u1, r0 * u2;
    MixedProducts(q0, r0, u1, u2);
    assert (q1 + x1) * (r2 + y2) - (q2 + x2) * (r1 + y1)
           == q1 * r2 - q2 * r1 + q1 * y2 + x1 * r2 - q2 * y1 - x2 * r1;
  }

  lemma {:induction false} MixedProducts(q0: real, r0: real, u1: real, u2: real)
    ensures (q0 * u1) * (r0 * u2) == (q0 * u2) * (r0 * u1)
  {
  }

  // The entries of a row that has lost its share of column 0.
  lemma {:induction false} EliminatedEntries(a: Row, q: Row)
    requires a[0] != 0.0
    ensures var e := Eliminated(q, 0, Scaled(a, a[0]));
            && a[1] == a[0] * Over(a[1], a[0]) && a[2] == a[0] * Over(a[2], a[0])
            && q[1] == e[1] + q[0] * Over(a[1], a[0]) && q[2] == e[2] + q[0] * Over(a[2], a[0])
  {
    hide Over;
    OverBack(a[1], a[0]);
    OverBack(a[2], a[0]);
  }

  lemma {:induction false} MinorIsEntry(a: Row, q: Row)
    requires a[0] != 0.0
    ensures Cross(a, q, 1) == Mul(a[0], Eliminated(q, 0, Scaled(a, a[0]))[1])
  {
    hide Over, Scaled, Eliminated, Mul;
    EliminatedEntries(a, q);
    var e := Eliminated(q, 0, Scaled(a, a[0]));
    var u := Over(a[1], a[0]);
    MinorOfEliminated(a[0], u, q[0], e[1]);
    assert a[0] * q[1] - q[0] * a[1] == a[0] * (e[1] + q[0] * u) - q[0] * (a[0] * u);
  }

  lemma {:induction false} DetIsEntries(a: Row, q: Row, r: Row)
    requires a[0] != 0.0
    ensures var unit := Scaled(a, a[0]);
            var e, f := Eliminated(q, 0, unit), Eliminated(r, 0, unit);
            RowsDet(a, q, r) == Mul(a[0], Lower(e, f))
  {
    hide Over, Scaled, Eliminated, Mul, Determinant, Minor;
    EliminatedEntries(a, q);
    EliminatedEntries(a, r);
    var unit := Scaled(a, a[0]);
    var e, f := Eliminated(q, 0, unit), Eliminated(r, 0, unit);
    var u1, u2 := Over(a[1], a[0]), Over(a[2], a[0]);
    ColumnsSubstituted(a[0], a[1], a[2], u1, u2, q[0], q[1], q[2], e[1], e[2], r[0], r[1], r[2], f[1], f[2]);
  }

  lemma {:induction false} ColumnsSubstituted(d: real, a1: real, a2: real, u1: real, u2: real,
                                              b0: real, b1: real, b2: real, e1: real, e2: real,
                                              c0: real, c1: real, c2: real, f1: real, f2: real)
    requires a1 == d * u1 && a2 == d * u2
    requires b1 == e1 + b0 * u1 && b2 == e2 + b0 * u2 && c1 == f1 + c0 * u1 && c2 == f2 + c0 * u2
    ensures Determinant(d, a1, a2, b0, b1, b2, c0, c1, c2) == Mul(d, Minor(e1, e2, f1, f2))
  {
    hide Mul, Minor;
    DeterminantOfEliminated(d, u1, u2, b0, e1, e2, c0, f1, f2);
  }

  // Exchanging two rows turns the sign of the determinant.
  lemma {:induction false} DetOfExchange(a: Row, b: Row, c: Row)
    ensures RowsDet(b, a, c) == -RowsDet(a, b, c)
    ensures RowsDet(a, c, b) == -RowsDet(a, b, c)
    ensures RowsDet(c, b, a) == -RowsDet(a, b, c)
  {
  }

  lemma {:induction false} SwapKeepsMinors(m: Augmented, p: nat)
    requires p < 3
    ensures var s := Swapped(m, 0, p);
            && s[0] == m[p]
            && Abs(Det(s)) == Abs(Det(m))
            && GreatestMinor(m, p) == Greater(Abs(Cross(s[0], s[1], 1)), Abs(Cross(s[0], s[2], 1)))
  {
    hide RowsDet, Cross;
    DetOfExchange(m[0], m[1], m[2]);
  }

  // ---------- the three steps ----------

  // The matrix after its first step, and the last entry that elimination leaves to divide by.
  function AfterFirst(s: Augmented): Augmented
    requires s[0][0] != 0.0
  {
    Cleared(s, 0, Scaled(s[0], s[0][0]))
  }

  lemma {:induction false} FirstStep(m: Augmented)
    ensures var p := Pivot(m, 0, 3);
            && (Step(m, 0).None? <==> Abs(m[p][0]) < SINGULAR)
            && (Step(m, 0).Some? ==>
                 Swapped(m, 0, p)[0] == m[p] && m[p][0] != 0.0 && Step(m, 0).value == AfterFirst(Swapped(m, 0, p)))
  {
    hide Cleared, Scaled;
  }

  lemma {:induction false} SecondStep(n: Augmented)
    ensures var p := Pivot(n, 1, 3);
            && 1 <= p < 3
            && Abs(n[p][1]) == Greater(Abs(n[1][1]), Abs(n[2][1]))
            && (Step(n, 1).None? <==> Abs(n[p][1]) < SINGULAR)
            && (Step(n, 1).Some? ==>
                 n[p][1] != 0.0 && Step(n, 1).value[2] == Eliminated(n[3 - p], 1, Scaled(n[p], n[p][1])))
  {
    hide Eliminated, Scaled;
    var p := Pivot(n, 1, 3);
    assert Pivot(n, 1, 2) == 1;
    assert Swapped(n, 1, p)[1] == n[p] && Swapped(n, 1, p)[2] == n[3 - p];
  }

  lemma {:induction false} ThirdStep(k: Augmented)
    ensures Step(k, 2).None? <==> Abs(k[2][2]) < SINGULAR
  {
    hide Cleared, Scaled;
  }

  // The last entry, times the pivot before it, is the minor of the two rows below the first.
  lemma {:induction false} LastEntry(q: Row, r: Row)
    requires q[1] != 0.0
    ensures Lower(q, r) == Mul(q[1], Eliminated(r, 1, Scaled(q, q[1]))[2])
  {
    hide Over;
    OverBack(q[2], q[1]);
    var u := Over(q[2], q[1]);
    Regroup3(q[1], r[1], u);
  }

  lemma {:induction false} Regroup3(a: real, b: real, u: real)
    ensures (a * u) * b == a * (b * u)
  {
  }

  // Both thresholds after the first, in terms of the entries that elimination leaves.
  lemma {:induction false} LaterSteps(n: Augmented)
    ensures var top := Greater(Abs(n[1][1]), Abs(n[2][1]));
            var minor := Abs(Lower(n[1], n[2]));
            (Step(n, 1).Some? && Step(Step(n, 1).value, 2).Some?) <==> top >= SINGULAR && minor >= Mul(SINGULAR, top)
  {
    hide Step, Eliminated, Scaled, Mul, Pivot, Lower;
    SecondStep(n);
    var p := Pivot(n, 1, 3);
    if Step(n, 1).Some? {
      var k := Step(n, 1).value;
      ThirdStep(k);
      var q, r := n[p], n[3 - p];
      LastEntry(q, r);
      AbsOfProduct(q[1], k[2][2]);
      MulRegroup(Abs(q[1]), Abs(k[2][2]), 1.0);
      MulKeepsOrder(SINGULAR, Abs(k[2][2]), Abs(q[1]));
      Antisymmetric(n[1], n[2]);
    }
  }

  lemma {:induction false} Antisymmetric(e: Row, f: Row)
    ensures Lower(f, e) == -Lower(e, f)
  {
  }

  // The minors and the determinant of the given matrix, as the later steps see them.
  lemma {:induction false} MinorsAfterFirst(s: Augmented)
    requires s[0][0] != 0.0
    ensures var n := AfterFirst(s);
            var d := Abs(s[0][0]);
            && Greater(Abs(Cross(s[0], s[1], 1)), Abs(Cross(s[0], s[2], 1)))
               == Mul(d, Greater(Abs(n[1][1]), Abs(n[2][1])))
            && Abs(Det(s)) == Mul(d, Abs(Lower(n[1], n[2])))
  {
    hide Cross, Scaled, Eliminated, Mul, RowsDet, Lower;
    var n := AfterFirst(s);
    var unit := Scaled(s[0], s[0][0]);
    assert n[1] == Eliminated(s[1], 0, unit) && n[2] == Eliminated(s[2], 0, unit);
    MinorIsEntry(s[0], s[1]);
    MinorIsEntry(s[0], s[2]);
    DetIsEntries(s[0], s[1], s[2]);
    AbsOfProduct(s[0][0], n[1][1]);
    AbsOfProduct(s[0][0], n[2][1]);
    AbsOfProduct(s[0][0], Lower(n[1], n[2]));
    GreaterOfProducts(Abs(s[0][0]), Abs(n[1][1]), Abs(n[2][1]));
  }

  lemma {:induction false} GreaterOfProducts(d: real, a: real, b: real)
    requires d > 0.0
    ensures Greater(Mul(d, a), Mul(d, b)) == Mul(d, Greater(a, b))
  {
    hide Mul;
    MulKeepsOrder(a, b, d);
    MulKeepsOrder(b, a, d);
    MulRegroup(d, a, 1.0);
    MulRegroup(d, b, 1.0);
  }

  // The solver returns exactly when the given matrix passes; otherwise it throws.
  lemma {:induction false} ReturnsExactlyWhen(m: Augmented, p: nat)
    requires FirstGreatest(m, p)
    ensures Solution(m).Some? <==> Passes(m, p)
  {
    hide Step, Swapped, Cross, Mul, AfterFirst, GreatestMinor, Det, Lower;
    PivotIsFirstGreatest(m);
    FirstStep(m);
    SolutionIsThreeSteps(m);
    if Step(m, 0).Some? {
      var s := Swapped(m, 0, p);
      var n := AfterFirst(s);
      SwapKeepsMinors(m, p);
      MinorsAfterFirst(s);
      LaterSteps(n);
      var d, top := Abs(s[0][0]), Greater(Abs(n[1][1]), Abs(n[2][1]));
      var minor := Abs(Lower(n[1], n[2]));
      MulKeepsOrder(SINGULAR, top, d);
      MulRegroup(d, top, 1.0);
      MulKeepsOrder(Mul(SINGULAR, top), minor, d);
      MulRegroup(d, minor, 1.0);
      MulRegroup(SINGULAR, top, d);
    }
  }

  lemma {:induction false} SolutionIsThreeSteps(m: Augmented)
    ensures Solution(m).Some? <==>
            Step(m, 0).Some? && Step(Step(m, 0).value, 1).Some? && Step(Step(Step(m, 0).value, 1).value, 2).Some?
  {
    hide Step;
    StepsStart(m);
    StepsMore(m, 0);
    if Step(m, 0).None? {
      StepsStop(m, 1);
    } else {
      StepsMore(m, 1);
      if Steps(m, 2).None? {
        StepsStop(m, 2);
      } else {
        StepsMore(m, 2);
      }
    }
  }

  // The fit exists exactly when the sums of its days pass: the number of days, the sums of the two
  // changes, of their squares and of their products are the matrix.
  lemma {:induction false} FitExactlyWhen(rows: seq<Point>, p: nat)
    requires FirstGreatest(NormalEquations(rows), p)
    ensures Fit(rows).Some? <==> Passes(NormalEquations(rows), p)
  {
    hide NormalEquations, Passes, FirstGreatest, Solution;
    ReturnsExactlyWhen(NormalEquations(rows), p);
  }

  // There always is such a row.
  lemma {:induction false} SomeRowIsGreatest(m: Augmented)
    ensures exists p :: FirstGreatest(m, p)
  {
    hide FirstGreatest;
    PivotIsFirstGreatest(m);
  }
}
