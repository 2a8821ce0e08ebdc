/**
 Power accumulators and their minute-by-minute sums: the mathematics shared by the power
 history and by the electrical hour. Times are milliseconds, minutes are indices
 (time divided by 60000, rounded down), measurements are exact reals.
 */
module PowerIntegral {
  import opened Wrappers

  const MINUTE_MS: int := 60000

  // A bracketed interval: two consecutive usable samples and the power of the first.
  datatype Interval = Interval(start: int, end: int, power: real)

  datatype Acc = Acc(expected: real, covered: real, watt: real, active: real, outside: real, peak: Option<real>)

  // The queried range, the activity threshold and which minutes count as outside the schedule.
  datatype Window = Window(from: int, to: int, threshold: real, outsideAt: int -> bool)

  function Max(a: int, b: int): int { if a < b then b else a }

  function Min(a: int, b: int): int { if a < b then a else b }

  function MinuteOf(t: int): int { t / MINUTE_MS }

  function Seconds(ms: int): real { ms as real / 1000.0 }

  function Zero(): Acc { Acc(0.0, 0.0, 0.0, 0.0, 0.0, None) }

  function MaxPeak(a: Option<real>, b: Option<real>): Option<real> {
    if a.None? then b else if b.None? then a else if a.value < b.value then b else a
  }

  function Plus(a: Acc, b: Acc): Acc {
    Acc(a.expected + b.expected, a.covered + b.covered, a.watt + b.watt, a.active + b.active,
        a.outside + b.outside, MaxPeak(a.peak, b.peak))
  }

  // Length of [lo, hi) inside minute m.
  function Overlap(m: int, lo: int, hi: int): nat {
    Max(0, Min(hi, MINUTE_MS * (m + 1)) - Max(lo, MINUTE_MS * m))
  }

  // What ms milliseconds at the given power, all inside minute m, add to an accumulator.
  function Piece(w: Window, power: real, ms: int, m: int): Acc {
    var seconds := Seconds(ms);
    Acc(0.0, seconds, power * seconds, if power >= w.threshold then seconds else 0.0,
        if w.outsideAt(m) then power * seconds else 0.0, Some(power))
  }

  function Contribution(w: Window, i: Interval, m: int): Acc {
    var ms := Overlap(m, Max(w.from, i.start), Min(w.to, i.end));
    if ms == 0 then Zero() else Piece(w, i.power, ms, m)
  }

  function Expectation(w: Window, m: int): Acc {
    Zero().(expected := Seconds(Overlap(m, w.from, w.to)))
  }

  // Everything that belongs to minute m.
  function Cell(w: Window, ivs: seq<Interval>, m: int): Acc {
    if |ivs| == 0 then Expectation(w, m)
    else Plus(Cell(w, ivs[..|ivs| - 1], m), Contribution(w, ivs[|ivs| - 1], m))
  }

  // The sum of the cells of the selected minutes of [a, b).
  ghost function Sum(cell: int -> Acc, sel: int -> bool, a: int, b: int): Acc
    decreases b - a
  {
    if b <= a then Zero()
    else Plus(Sum(cell, sel, a, b - 1), if sel(b - 1) then cell(b - 1) else Zero())
  }

  function Always(): int -> bool { m => true }

  function Class(f: int -> int, c: int): int -> bool { m => f(m) == c }

  function Cells(w: Window, ivs: seq<Interval>): int -> Acc { m => Cell(w, ivs, m) }

  function Contributions(w: Window, i: Interval): int -> Acc { m => Contribution(w, i, m) }

  lemma {:induction false} Interchange(a: Acc, b: Acc, c: Acc, d: Acc)
    ensures Plus(Plus(a, b), Plus(c, d)) == Plus(Plus(a, c), Plus(b, d))
  {
  }

  lemma {:induction false} PlusZero(a: Acc)
    ensures Plus(a, Zero()) == a && Plus(Zero(), a) == a
  {
  }

  // ---------- sums over minutes ----------

  lemma {:induction false} SumAgree(c1: int -> Acc, c2: int -> Acc, s1: int -> bool, s2: int -> bool, a: int, b: int)
    requires forall m :: a <= m < b ==> s1(m) == s2(m)
    requires forall m :: a <= m < b && s1(m) ==> c1(m) == c2(m)
    ensures Sum(c1, s1, a, b) == Sum(c2, s2, a, b)
    decreases b - a
  {
    if a < b {
      SumAgree(c1, c2, s1, s2, a, b - 1);
    }
  }

  lemma {:induction false} SumZero(c: int -> Acc, s: int -> bool, a: int, b: int)
    requires forall m :: a <= m < b && s(m) ==> c(m) == Zero()
    ensures Sum(c, s, a, b) == Zero()
    decreases b - a
  {
    if a < b {
      SumZero(c, s, a, b - 1);
    }
  }

  lemma {:induction false} SumConcat(c: int -> Acc, s: int -> bool, a: int, b: int, d: int)
    requires a <= b <= d
    ensures Sum(c, s, a, d) == Plus(Sum(c, s, a, b), Sum(c, s, b, d))
    decreases d - b
  {
    hide Plus;
    if b < d {
      SumConcat(c, s, a, b, d - 1);
      PlusAssociative(Sum(c, s, a, b), Sum(c, s, b, d - 1), if s(d - 1) then c(d - 1) else Zero());
    } else {
      PlusZero(Sum(c, s, a, b));
    }
  }

  lemma {:induction false} PlusAssociative(x: Acc, y: Acc, z: Acc)
    ensures Plus(Plus(x, y), z) == Plus(x, Plus(y, z))
  {
  }

  lemma {:induction false} SumOfPlus(c: int -> Acc, c1: int -> Acc, c2: int -> Acc, s: int -> bool, a: int, b: int)
    requires forall m :: a <= m < b ==> c(m) == Plus(c1(m), c2(m))
    ensures Sum(c, s, a, b) == Plus(Sum(c1, s, a, b), Sum(c2, s, a, b))
    decreases b - a
  {
    hide Plus;
    if a < b {
      SumOfPlus(c, c1, c2, s, a, b - 1);
      if s(b - 1) {
        Interchange(Sum(c1, s, a, b - 1), Sum(c2, s, a, b - 1), c1(b - 1), c2(b - 1));
      } else {
        PlusZero(Sum(c, s, a, b - 1));
        PlusZero(Sum(c1, s, a, b - 1));
        PlusZero(Sum(c2, s, a, b - 1));
      }
    } else {
      PlusZero(Zero());
    }
  }

  lemma {:induction false} SumUnion(c: int -> Acc, s: int -> bool, s1: int -> bool, s2: int -> bool, a: int, b: int)
    requires forall m :: a <= m < b ==> s(m) == (s1(m) || s2(m)) && !(s1(m) && s2(m))
    ensures Sum(c, s, a, b) == Plus(Sum(c, s1, a, b), Sum(c, s2, a, b))
    decreases b - a
  {
    if a < b {
      SumUnion(c, s, s1, s2, a, b - 1);
    }
  }

  // Minutes that contribute nothing may be added on either side.
  lemma {:induction false} SumWiden(c: int -> Acc, s: int -> bool, a: int, x: int, y: int, b: int)
    requires a <= x <= y <= b
    requires forall m :: (a <= m < x || y <= m < b) && s(m) ==> c(m) == Zero()
    ensures Sum(c, s, a, b) == Sum(c, s, x, y)
  {
    SumConcat(c, s, a, x, b);
    SumConcat(c, s, x, y, b);
    SumZero(c, s, a, x);
    SumZero(c, s, y, b);
  }

  // ---------- conservation ----------

  // The sum, over the listed classes, of what each class holds.
  ghost function SumClasses(c: int -> Acc, f: int -> int, classes: seq<int>, a: int, b: int): Acc {
    if |classes| == 0 then Zero()
    else Plus(SumClasses(c, f, classes[..|classes| - 1], a, b), Sum(c, Class(f, classes[|classes| - 1]), a, b))
  }

  ghost predicate Distinct(xs: seq<int>) {
    forall i, j :: 0 <= i < j < |xs| ==> xs[i] != xs[j]
  }

  lemma {:induction false} SumClassesIsUnion(c: int -> Acc, f: int -> int, classes: seq<int>, a: int, b: int)
    requires Distinct(classes)
    ensures SumClasses(c, f, classes, a, b) == Sum(c, m => f(m) in classes, a, b)
  {
    if |classes| == 0 {
      SumZero(c, m => f(m) in classes, a, b);
    } else {
      var front, last := classes[..|classes| - 1], classes[|classes| - 1];
      assert classes == front + [last];
      SumClassesIsUnion(c, f, front, a, b);
      assert last !in front;
      SumUnion(c, m => f(m) in classes, m => f(m) in front, Class(f, last), a, b);
    }
  }

  // Splitting the minutes into classes loses and double-counts nothing, in any field.
  lemma {:induction false} Conservation(c: int -> Acc, f: int -> int, classes: seq<int>, a: int, b: int)
    requires Distinct(classes)
    requires forall m :: a <= m < b ==> f(m) in classes
    ensures SumClasses(c, f, classes, a, b) == Sum(c, Always(), a, b)
  {
    SumClassesIsUnion(c, f, classes, a, b);
    SumAgree(c, c, m => f(m) in classes, Always(), a, b);
  }

  // ---------- closed form ----------

  // Length of the interval clipped to [lo, hi).
  function Clip(i: Interval, lo: int, hi: int): nat {
    Max(0, Min(hi, i.end) - Max(lo, i.start))
  }

  // Power held for ms milliseconds.
  function Held(threshold: real, power: real, ms: nat): Acc {
    if ms == 0 then Zero()
    else
      var seconds := Seconds(ms);
      Acc(0.0, seconds, power * seconds, if power >= threshold then seconds else 0.0, 0.0, Some(power))
  }

  // Power times clipped length summed over the intervals, with no minutes involved.
  // The outside-schedule field has no such form and is left at zero.
  function Direct(threshold: real, ivs: seq<Interval>, lo: int, hi: int): Acc {
    if |ivs| == 0 then Zero().(expected := Seconds(Max(0, hi - lo)))
    else Plus(Direct(threshold, ivs[..|ivs| - 1], lo, hi),
              Held(threshold, ivs[|ivs| - 1].power, Clip(ivs[|ivs| - 1], lo, hi)))
  }

  function Inside(a: Acc): Acc { a.(outside := 0.0) }

  lemma {:induction false} SecondsAdd(power: real, ms1: int, ms2: int)
    ensures Seconds(ms1 + ms2) == Seconds(ms1) + Seconds(ms2)
    ensures power * Seconds(ms1 + ms2) == power * Seconds(ms1) + power * Seconds(ms2)
  {
    assert Seconds(ms1 + ms2) == Seconds(ms1) + Seconds(ms2);
  }

  lemma {:induction false} PieceAdds(w: Window, power: real, ms1: int, ms2: int, m: int)
    ensures Plus(Piece(w, power, ms1, m), Piece(w, power, ms2, m)) == Piece(w, power, ms1 + ms2, m)
  {
    SecondsAdd(power, ms1, ms2);
  }

  lemma {:induction false} HeldAdds(threshold: real, power: real, ms1: nat, ms2: nat)
    ensures Plus(Held(threshold, power, ms1), Held(threshold, power, ms2)) == Held(threshold, power, ms1 + ms2)
  {
    SecondsAdd(power, ms1, ms2);
  }

  // Minute lengths add up to the length of the range they cover.
  lemma {:induction false} OverlapAdds(a: int, b: int, lo: int, hi: int)
    requires a <= b
    ensures Max(0, Min(hi, MINUTE_MS * (b + 1)) - Max(lo, MINUTE_MS * a))
         == Max(0, Min(hi, MINUTE_MS * b) - Max(lo, MINUTE_MS * a)) + Overlap(b, lo, hi)
  {
  }

  // The stretch of the interval inside the window and inside minutes [a, b).
  function Stretch(w: Window, i: Interval, a: int, b: int): nat {
    Clip(i, Max(w.from, MINUTE_MS * a), Min(w.to, MINUTE_MS * b))
  }

  lemma {:induction false} StretchGrows(w: Window, i: Interval, a: int, b: int)
    requires a <= b
    ensures Inside(Contribution(w, i, b)) == Held(w.threshold, i.power, Stretch(w, i, b, b + 1))
    ensures Stretch(w, i, a, b + 1) == Stretch(w, i, a, b) + Stretch(w, i, b, b + 1)
  {
    hide Contribution, Held, Inside;
    ContributionIsHeld(w, i, b);
  }

  lemma {:induction false} ContributionIsHeld(w: Window, i: Interval, b: int)
    ensures Inside(Contribution(w, i, b)) == Held(w.threshold, i.power, Stretch(w, i, b, b + 1))
  {
    hide Max, Min;
    StretchIsOverlap(w, i, b);
  }

  lemma {:induction false} StretchIsOverlap(w: Window, i: Interval, b: int)
    ensures Stretch(w, i, b, b + 1) == Overlap(b, Max(w.from, i.start), Min(w.to, i.end))
  {
  }

  lemma {:induction false} LastMinute(c: int -> Acc, a: int, b: int)
    requires a < b
    ensures Sum(c, Always(), a, b) == Plus(Sum(c, Always(), a, b - 1), c(b - 1))
  {
  }

  lemma {:induction false} InsidePlus(x: Acc, y: Acc)
    ensures Inside(Plus(x, y)) == Plus(Inside(x), Inside(y))
  {
  }

  lemma {:induction false} ContributionsAreDirect(w: Window, i: Interval, a: int, b: int)
    requires a <= b
    ensures Inside(Sum(Contributions(w, i), Always(), a, b))
         == Held(w.threshold, i.power, Stretch(w, i, a, b))
    decreases b - a
  {
    if a < b {
      ContributionsAreDirect(w, i, a, b - 1);
      StretchGrows(w, i, a, b - 1);
      LastMinute(Contributions(w, i), a, b);
      assert Contributions(w, i)(b - 1) == Contribution(w, i, b - 1);
      hide *;
      InsidePlus(Sum(Contributions(w, i), Always(), a, b - 1), Contribution(w, i, b - 1));
      HeldAdds(w.threshold, i.power, Stretch(w, i, a, b - 1), Stretch(w, i, b - 1, b));
    }
  }

  lemma {:induction false} ExpectationsAreDirect(w: Window, a: int, b: int)
    requires a <= b
    ensures Sum(m => Expectation(w, m), Always(), a, b)
         == Direct(w.threshold, [], Max(w.from, MINUTE_MS * a), Min(w.to, MINUTE_MS * b))
    decreases b - a
  {
    if a < b {
      ExpectationsAreDirect(w, a, b - 1);
      OverlapAdds(a, b - 1, w.from, w.to);
      var x := Max(0, Min(w.to, MINUTE_MS * (b - 1)) - Max(w.from, MINUTE_MS * a));
      assert Seconds(x + Overlap(b - 1, w.from, w.to)) == Seconds(x) + Seconds(Overlap(b - 1, w.from, w.to));
    }
  }

  // The minute-by-minute sum over whole minutes [a, b) is the closed form of that stretch.
  lemma {:induction false} SumIsDirect(w: Window, ivs: seq<Interval>, a: int, b: int)
    requires a <= b
    ensures Inside(Sum(Cells(w, ivs), Always(), a, b))
         == Direct(w.threshold, ivs, Max(w.from, MINUTE_MS * a), Min(w.to, MINUTE_MS * b))
  {
    if |ivs| == 0 {
      ExpectationsAreDirect(w, a, b);
      SumAgree(Cells(w, ivs), m => Expectation(w, m), Always(), Always(), a, b);
    } else {
      var front, last := ivs[..|ivs| - 1], ivs[|ivs| - 1];
      SumIsDirect(w, front, a, b);
      ContributionsAreDirect(w, last, a, b);
      SumOfPlus(Cells(w, ivs), Cells(w, front), Contributions(w, last), Always(), a, b);
    }
  }

  // ---------- the whole window ----------

  // Everything inside the window: its minutes are MinuteOf(from) .. MinuteOf(to - 1).
  ghost function Total(w: Window, ivs: seq<Interval>): Acc {
    Sum(Cells(w, ivs), Always(), MinuteOf(w.from), MinuteOf(w.to - 1) + 1)
  }

  lemma {:induction false} TotalIsDirect(w: Window, ivs: seq<Interval>)
    requires w.from < w.to
    ensures Inside(Total(w, ivs)) == Direct(w.threshold, ivs, w.from, w.to)
  {
    SumIsDirect(w, ivs, MinuteOf(w.from), MinuteOf(w.to - 1) + 1);
  }

  lemma {:induction false} NothingOutsideWindow(w: Window, ivs: seq<Interval>, m: int)
    requires w.from < w.to
    requires m < MinuteOf(w.from) || MinuteOf(w.to - 1) < m
    ensures Cell(w, ivs, m) == Zero()
  {
    if |ivs| > 0 {
      NothingOutsideWindow(w, ivs[..|ivs| - 1], m);
    }
  }

  // ---------- additivity over ranges ----------

  lemma {:induction false} ContributionSplits(w: Window, i: Interval, mid: int, m: int)
    requires w.from < mid < w.to
    ensures Contribution(w, i, m) == Plus(Contribution(w.(to := mid), i, m), Contribution(w.(from := mid), i, m))
  {
    var w1, w2 := w.(to := mid), w.(from := mid);
    var ms1 := Overlap(m, Max(w1.from, i.start), Min(w1.to, i.end));
    var ms2 := Overlap(m, Max(w2.from, i.start), Min(w2.to, i.end));
    assert Overlap(m, Max(w.from, i.start), Min(w.to, i.end)) == ms1 + ms2;
    PieceAdds(w, i.power, ms1, ms2, m);
  }

  lemma {:induction false} ExpectationSplits(w: Window, mid: int, m: int)
    requires w.from < mid < w.to
    ensures Expectation(w, m) == Plus(Expectation(w.(to := mid), m), Expectation(w.(from := mid), m))
  {
    assert Overlap(m, w.from, w.to) == Overlap(m, w.from, mid) + Overlap(m, mid, w.to);
  }

  lemma {:induction false} CellSplits(w: Window, ivs: seq<Interval>, mid: int, m: int)
    requires w.from < mid < w.to
    ensures Cell(w, ivs, m) == Plus(Cell(w.(to := mid), ivs, m), Cell(w.(from := mid), ivs, m))
  {
    var w1, w2 := w.(to := mid), w.(from := mid);
    if |ivs| == 0 {
      ExpectationSplits(w, mid, m);
    } else {
      hide Plus, Contribution;
      var front, last := ivs[..|ivs| - 1], ivs[|ivs| - 1];
      CellSplits(w, front, mid, m);
      ContributionSplits(w, last, mid, m);
      Interchange(Cell(w1, front, m), Cell(w2, front, m), Contribution(w1, last, m), Contribution(w2, last, m));
    }
  }

  // The total may be taken over any wider range of minutes.
  lemma {:induction false} TotalWiden(w: Window, ivs: seq<Interval>, a: int, b: int)
    requires w.from < w.to
    requires a <= MinuteOf(w.from) && MinuteOf(w.to - 1) < b
    ensures Sum(Cells(w, ivs), Always(), a, b) == Total(w, ivs)
  {
    forall m | m < MinuteOf(w.from) || MinuteOf(w.to - 1) < m
      ensures Cells(w, ivs)(m) == Zero()
    {
      NothingOutsideWindow(w, ivs, m);
    }
    hide Sum, Cell;
    SumWiden(Cells(w, ivs), Always(), a, MinuteOf(w.from), MinuteOf(w.to - 1) + 1, b);
  }

  lemma {:induction false} MinuteMonotone(t: int, u: int)
    requires t <= u
    ensures MinuteOf(t) <= MinuteOf(u)
  {
  }

  lemma {:induction false} CellsAt(w: Window, ivs: seq<Interval>, m: int)
    ensures Cells(w, ivs)(m) == Cell(w, ivs, m)
  {
  }

  // Cutting a range anywhere, even inside a minute or inside an interval, splits every field of
  // its total: expected, covered, watt, active and outside seconds add, peaks combine.
  lemma {:induction false} RangeAdditivity(w: Window, ivs: seq<Interval>, mid: int)
    requires w.from < mid < w.to
    ensures Total(w, ivs) == Plus(Total(w.(to := mid), ivs), Total(w.(from := mid), ivs))
  {
    var w1, w2 := w.(to := mid), w.(from := mid);
    var a, b := MinuteOf(w.from), MinuteOf(w.to - 1) + 1;
    hide *;
    MinuteMonotone(w.from, mid);
    MinuteMonotone(mid - 1, w.to - 1);
    TotalWiden(w, ivs, a, b);
    TotalWiden(w1, ivs, a, b);
    TotalWiden(w2, ivs, a, b);
    forall m
      ensures Cells(w, ivs)(m) == Plus(Cells(w1, ivs)(m), Cells(w2, ivs)(m))
    {
      CellsAt(w, ivs, m);
      CellsAt(w1, ivs, m);
      CellsAt(w2, ivs, m);
      CellSplits(w, ivs, mid, m);
    }
    SumOfPlus(Cells(w, ivs), Cells(w1, ivs), Cells(w2, ivs), Always(), a, b);
  }

  // ---------- coverage ----------

  // Intervals in time order that do not overlap, as consecutive samples produce them.
  ghost predicate Chained(ivs: seq<Interval>) {
    && (forall k :: 0 <= k < |ivs| ==> ivs[k].start <= ivs[k].end)
    && (forall j, k :: 0 <= j < k < |ivs| ==> ivs[j].end <= ivs[k].start)
  }

  lemma {:induction false} MinuteCoverage(w: Window, ivs: seq<Interval>, m: int, limit: int)
    requires Chained(ivs)
    requires forall k :: 0 <= k < |ivs| ==> ivs[k].end <= limit
    ensures Cell(w, ivs, m).covered <= Seconds(Overlap(m, w.from, Min(w.to, limit)))
  {
    if |ivs| > 0 {
      var last := ivs[|ivs| - 1];
      MinuteCoverage(w, ivs[..|ivs| - 1], m, last.start);
      var ms := Overlap(m, Max(w.from, last.start), Min(w.to, last.end));
      assert ms + Overlap(m, w.from, Min(w.to, last.start)) <= Overlap(m, w.from, Min(w.to, limit));
    }
  }

  lemma {:induction false} CellExpected(w: Window, ivs: seq<Interval>, m: int)
    ensures Cell(w, ivs, m).expected == Seconds(Overlap(m, w.from, w.to))
  {
    if |ivs| > 0 {
      CellExpected(w, ivs[..|ivs| - 1], m);
    }
  }

  // No selection of minutes is covered for longer than it lasts.
  lemma {:induction false} CoverageBound(w: Window, ivs: seq<Interval>, sel: int -> bool, a: int, b: int)
    requires Chained(ivs)
    ensures Sum(Cells(w, ivs), sel, a, b).covered <= Sum(Cells(w, ivs), sel, a, b).expected
    decreases b - a
  {
    if a < b {
      CoverageBound(w, ivs, sel, a, b - 1);
      var limit := if |ivs| == 0 then w.to else Max(w.to, ivs[|ivs| - 1].end);
      MinuteCoverage(w, ivs, b - 1, limit);
      CellExpected(w, ivs, b - 1);
    }
  }
}
