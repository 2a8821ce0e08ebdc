/** What holds of every power history report, on all readings, queries and calendars. */
module PowerHistoryLaws {
  import opened Wrappers
  import opened PowerIntegral
  import opened PowerHistory
  import StableSort

  // ---------- conservation ----------

  ghost function HourNumbers(q: Query, cal: Calendar): (r: seq<int>) {
    seq(Hour(q, cal)(EndMinute(q) - 1) + 1, i => i)
  }

  lemma {:induction false} NumbersDistinct(q: Query, cal: Calendar)
    ensures Distinct(HourNumbers(q, cal))
  {
  }

  lemma {:induction false} HourNumbered(q: Query, cal: Calendar, m: int)
    requires FirstMinute(q) <= m < EndMinute(q)
    ensures Hour(q, cal)(m) in HourNumbers(q, cal)
  {
    HourIndexMonotone(cal, FirstMinute(q), m, EndMinute(q) - 1);
    assert HourNumbers(q, cal)[Hour(q, cal)(m)] == Hour(q, cal)(m);
  }

  // Expected, covered, watt, active and outside seconds summed over the hours give the total.
  lemma {:induction false} HoursAddUp(q: Query, cal: Calendar, ivs: seq<Interval>)
    requires q.from < q.to
    ensures SumClasses(Cells(WindowOf(q, cal), ivs), Hour(q, cal), HourNumbers(q, cal), FirstMinute(q), EndMinute(q))
         == Total(WindowOf(q, cal), ivs)
  {
    hide Sum, SumClasses, Cells, MinuteOf, OutsideAt, HourNumbers, Hour;
    NumbersDistinct(q, cal);
    forall m | FirstMinute(q) <= m < EndMinute(q)
      ensures Hour(q, cal)(m) in HourNumbers(q, cal)
    {
      HourNumbered(q, cal, m);
    }
    Conservation(Cells(WindowOf(q, cal), ivs), Hour(q, cal), HourNumbers(q, cal), FirstMinute(q), EndMinute(q));
  }

  lemma {:induction false} DatesCover(q: Query, cal: Calendar, dates: seq<int>, m: int)
    requires forall d :: d in dates <==> DateQueried(q, cal, d)
    requires FirstMinute(q) <= m < EndMinute(q)
    ensures cal.date(m) in dates
  {
    assert DateQueried(q, cal, cal.date(m));
  }

  // And so do the days.
  lemma {:induction false} DaysAddUp(q: Query, cal: Calendar, ivs: seq<Interval>, dates: seq<int>)
    requires q.from < q.to
    requires Distinct(dates) && forall d :: d in dates <==> DateQueried(q, cal, d)
    ensures DaySum(q, cal, ivs, dates) == Total(WindowOf(q, cal), ivs)
  {
    hide Sum, SumClasses, Cells, MinuteOf, OutsideAt, DateQueried, Distinct;
    forall m | FirstMinute(q) <= m < EndMinute(q)
      ensures cal.date(m) in dates
    {
      DatesCover(q, cal, dates, m);
    }
    Conservation(Cells(WindowOf(q, cal), ivs), cal.date, dates, FirstMinute(q), EndMinute(q));
  }

  // The additive figures of a report, with "nothing known" read as none.
  datatype Amounts = Amounts(expectedSeconds: real, coveredSeconds: real, energyKwh: real, activeMinutes: real,
                             outsideKwh: real)

  function OrZero(x: Option<real>): real { if x.Some? then x.value else 0.0 }

  function AmountsOf(s: Stats): Amounts {
    Amounts(s.expectedSeconds, s.coveredSeconds, OrZero(s.energyKwh), OrZero(s.activeMinutes),
            OrZero(s.outsideScheduleKwh))
  }

  function Add(x: Amounts, y: Amounts): Amounts {
    Amounts(x.expectedSeconds + y.expectedSeconds, x.coveredSeconds + y.coveredSeconds, x.energyKwh + y.energyKwh,
            x.activeMinutes + y.activeMinutes, x.outsideKwh + y.outsideKwh)
  }

  function Nothing(): Amounts { Amounts(0.0, 0.0, 0.0, 0.0, 0.0) }

  function Hourly(hourly: seq<HourReport>): Amounts {
    if |hourly| == 0 then Nothing() else Add(Hourly(hourly[..|hourly| - 1]), AmountsOf(hourly[|hourly| - 1].stats))
  }

  function Daily(daily: seq<DayReport>): Amounts {
    if |daily| == 0 then Nothing() else Add(Daily(daily[..|daily| - 1]), AmountsOf(daily[|daily| - 1].stats))
  }

  // An accumulator in the units of a report.
  function InUnits(a: Acc): Amounts {
    Amounts(a.expected, a.covered, a.watt / 3600000.0, a.active / 60.0, a.outside / 3600000.0)
  }

  lemma {:induction false} UnitsAdd(x: Acc, y: Acc)
    ensures InUnits(Plus(x, y)) == Add(InUnits(x), InUnits(y)) && InUnits(Zero()) == Nothing()
  {
  }

  ghost predicate Idle(a: Acc) {
    a.covered >= 0.0 && (a.covered == 0.0 ==> a.watt == 0.0 && a.active == 0.0 && a.outside == 0.0)
  }

  // Uncovered time carries no energy and no activity, so reporting them as unknown loses none.
  lemma {:induction false} UncoveredIsIdle(w: Window, ivs: seq<Interval>, sel: int -> bool, a: int, b: int)
    ensures Idle(Sum(Cells(w, ivs), sel, a, b))
    decreases b - a
  {
    if a < b {
      UncoveredIsIdle(w, ivs, sel, a, b - 1);
      UncoveredCellIsIdle(w, ivs, b - 1);
    }
  }

  lemma {:induction false} UncoveredCellIsIdle(w: Window, ivs: seq<Interval>, m: int)
    ensures Idle(Cell(w, ivs, m))
  {
    if |ivs| > 0 {
      UncoveredCellIsIdle(w, ivs[..|ivs| - 1], m);
      assert Idle(Contribution(w, ivs[|ivs| - 1], m));
    }
  }

  // Minutes that are not outside the schedule carry no outside energy.
  lemma {:induction false} NothingOutside(w: Window, ivs: seq<Interval>, sel: int -> bool, a: int, b: int)
    requires forall m :: a <= m < b && sel(m) ==> !w.outsideAt(m)
    ensures Sum(Cells(w, ivs), sel, a, b).outside == 0.0
    decreases b - a
  {
    if a < b {
      NothingOutside(w, ivs, sel, a, b - 1);
      if sel(b - 1) {
        NothingOutsideCell(w, ivs, b - 1);
      }
    }
  }

  lemma {:induction false} NothingOutsideCell(w: Window, ivs: seq<Interval>, m: int)
    requires !w.outsideAt(m)
    ensures Cell(w, ivs, m).outside == 0.0
  {
    if |ivs| > 0 {
      NothingOutsideCell(w, ivs[..|ivs| - 1], m);
    }
  }

  // Figures derived from a sum are that sum in the report's units, when a missing schedule hides nothing.
  lemma {:induction false} ReportedAmounts(q: Query, cal: Calendar, ivs: seq<Interval>, sel: int -> bool, s: Stats,
      known: bool)
    requires s == StatsOf(Sum(Cells(WindowOf(q, cal), ivs), sel, FirstMinute(q), EndMinute(q)), known)
    requires known || Sum(Cells(WindowOf(q, cal), ivs), sel, FirstMinute(q), EndMinute(q)).outside == 0.0
    ensures AmountsOf(s) == InUnits(Sum(Cells(WindowOf(q, cal), ivs), sel, FirstMinute(q), EndMinute(q)))
  {
    UncoveredIsIdle(WindowOf(q, cal), ivs, sel, FirstMinute(q), EndMinute(q));
  }

  // The minutes of an hour or a day whose schedule is unknown are never outside it.
  lemma {:induction false} UnknownHidesNothing(q: Query, cal: Calendar, ivs: seq<Interval>, sel: int -> bool, date: int)
    requires !ScheduleKnown(q.schedule, date)
    requires forall m :: FirstMinute(q) <= m < EndMinute(q) && sel(m) ==> cal.date(m) == date
    ensures Sum(Cells(WindowOf(q, cal), ivs), sel, FirstMinute(q), EndMinute(q)).outside == 0.0
  {
    NothingOutside(WindowOf(q, cal), ivs, sel, FirstMinute(q), EndMinute(q));
  }

  lemma {:induction false} HourAmounts(q: Query, cal: Calendar, ivs: seq<Interval>, hourly: seq<HourReport>, h: nat)
    requires HoursTile(q, cal, hourly) && HoursReported(q, cal, ivs, hourly) && h < |hourly|
    ensures AmountsOf(hourly[h].stats) == InUnits(HourTotal(q, cal, ivs, h))
  {
    hide Sum, Hour, FirstMinute, EndMinute, ScheduleKnown, WindowOf, Cells, StatsOf, AmountsOf, InUnits;
    var date := hourly[h].localDate;
    if !ScheduleKnown(q.schedule, date) {
      forall m | FirstMinute(q) <= m < EndMinute(q) && Class(Hour(q, cal), h)(m)
        ensures cal.date(m) == date
      {
        assert InHour(q, cal, hourly, m);
      }
      UnknownHidesNothing(q, cal, ivs, Class(Hour(q, cal), h), date);
    }
    ReportedAmounts(q, cal, ivs, Class(Hour(q, cal), h), hourly[h].stats, ScheduleKnown(q.schedule, date));
  }

  lemma {:induction false} DayAmounts(q: Query, cal: Calendar, ivs: seq<Interval>, date: int, s: Stats)
    requires s == StatsOf(DayTotal(q, cal, ivs, date), ScheduleKnown(q.schedule, date))
    ensures AmountsOf(s) == InUnits(DayTotal(q, cal, ivs, date))
  {
    hide Sum, FirstMinute, EndMinute, ScheduleKnown, WindowOf, Cells, StatsOf, AmountsOf, InUnits;
    if !ScheduleKnown(q.schedule, date) {
      UnknownHidesNothing(q, cal, ivs, Class(cal.date, date), date);
    }
    ReportedAmounts(q, cal, ivs, Class(cal.date, date), s, ScheduleKnown(q.schedule, date));
  }

  lemma {:induction false} HourlySums(q: Query, cal: Calendar, ivs: seq<Interval>, hourly: seq<HourReport>, n: nat)
    requires HoursTile(q, cal, hourly) && HoursReported(q, cal, ivs, hourly) && n <= |hourly|
    ensures Hourly(hourly[..n])
         == InUnits(SumClasses(Cells(WindowOf(q, cal), ivs), Hour(q, cal), seq(n, i => i), FirstMinute(q),
                               EndMinute(q)))
  {
    hide Sum, Hour, FirstMinute, EndMinute, WindowOf, Cells, HoursTile, HoursReported, InUnits, AmountsOf, Add, Plus;
    UnitsAdd(Zero(), Zero());
    if n > 0 {
      HourlySums(q, cal, ivs, hourly, n - 1);
      assert seq(n, i => i)[..n - 1] == seq(n - 1, i => i) && hourly[..n][..n - 1] == hourly[..n - 1];
      HourAmounts(q, cal, ivs, hourly, n - 1);
      UnitsAdd(SumClasses(Cells(WindowOf(q, cal), ivs), Hour(q, cal), seq(n - 1, i => i), FirstMinute(q), EndMinute(q)),
               HourTotal(q, cal, ivs, n - 1));
    }
  }

  lemma {:induction false} DailySums(q: Query, cal: Calendar, ivs: seq<Interval>, daily: seq<DayReport>)
    requires forall i :: 0 <= i < |daily| ==>
      daily[i].stats == StatsOf(DayTotal(q, cal, ivs, daily[i].date), ScheduleKnown(q.schedule, daily[i].date))
    ensures Daily(daily) == InUnits(DaySum(q, cal, ivs, Dates(daily)))
  {
    hide Sum, FirstMinute, EndMinute, ScheduleKnown, WindowOf, Cells, StatsOf, InUnits, AmountsOf, Add, Plus;
    UnitsAdd(Zero(), Zero());
    var n := |daily|;
    if n > 0 {
      DailySums(q, cal, ivs, daily[..n - 1]);
      assert Dates(daily)[..n - 1] == Dates(daily[..n - 1]);
      DayAmounts(q, cal, ivs, daily[n - 1].date, daily[n - 1].stats);
      UnitsAdd(DaySum(q, cal, ivs, Dates(daily[..n - 1])), DayTotal(q, cal, ivs, daily[n - 1].date));
    }
  }

  ghost function HourSum(q: Query, cal: Calendar, ivs: seq<Interval>): Acc {
    SumClasses(Cells(WindowOf(q, cal), ivs), Hour(q, cal), HourNumbers(q, cal), FirstMinute(q), EndMinute(q))
  }

  ghost function DaySum(q: Query, cal: Calendar, ivs: seq<Interval>, dates: seq<int>): Acc {
    SumClasses(Cells(WindowOf(q, cal), ivs), cal.date, dates, FirstMinute(q), EndMinute(q))
  }

  lemma {:induction false} TotalExpected(q: Query, cal: Calendar, ivs: seq<Interval>)
    requires q.from < q.to
    ensures Total(WindowOf(q, cal), ivs).expected == Seconds(q.to - q.from)
  {
    TotalIsDirect(WindowOf(q, cal), ivs);
    DirectExpected(q.threshold, ivs, q.from, q.to);
  }

  // Everything but the energy outside the schedule, which a summary gives only when every date's is known.
  function WithoutOutside(x: Amounts): Amounts { x.(outsideKwh := 0.0) }

  lemma {:induction false} SummaryAmounts(q: Query, cal: Calendar, ivs: seq<Interval>, a: Analysis)
    requires Reports(q, cal, ivs, a)
    ensures WithoutOutside(AmountsOf(a.summary)) == WithoutOutside(InUnits(Total(WindowOf(q, cal), ivs)))
    ensures AllKnown(q.schedule, Dates(a.daily)) ==> AmountsOf(a.summary) == InUnits(Total(WindowOf(q, cal), ivs))
    ensures !AllKnown(q.schedule, Dates(a.daily)) ==> a.summary.outsideScheduleKwh == None
    ensures a.summary.peakPowerW == Total(WindowOf(q, cal), ivs).peak
  {
    hide HoursTile, HoursReported, DaysReported, AllKnown, Sum, OutsideAt, Cells, FirstMinute, EndMinute;
    UncoveredIsIdle(WindowOf(q, cal), ivs, Always(), MinuteOf(q.from), MinuteOf(q.to - 1) + 1);
  }

  // The parts of a report.
  lemma {:induction false} ReportParts(q: Query, cal: Calendar, ivs: seq<Interval>, a: Analysis)
    requires Reports(q, cal, ivs, a)
    ensures HoursTile(q, cal, a.hourly) && HoursReported(q, cal, ivs, a.hourly) && DaysReported(q, cal, ivs, a.daily)
    ensures a.summary == StatsOf(Total(WindowOf(q, cal), ivs), AllKnown(q.schedule, Dates(a.daily)))
  {
    hide HoursTile, HoursReported, DaysReported, StatsOf, Total;
  }

  lemma {:induction false} HoursOfReport(q: Query, cal: Calendar, ivs: seq<Interval>, hourly: seq<HourReport>)
    requires HoursTile(q, cal, hourly) && HoursReported(q, cal, ivs, hourly)
    ensures Hourly(hourly) == InUnits(HourSum(q, cal, ivs))
  {
    hide HoursReported, Hourly, SumClasses, Cells, WindowOf, InHour, Sum, HoursTile, InUnits;
    HourlySums(q, cal, ivs, hourly, |hourly|);
    HoursNumbered(q, cal, hourly);
    assert hourly[..|hourly|] == hourly;
  }

  lemma {:induction false} HoursNumbered(q: Query, cal: Calendar, hourly: seq<HourReport>)
    requires HoursTile(q, cal, hourly)
    ensures HourNumbers(q, cal) == seq(|hourly|, i => i)
  {
    hide InHour, Hour;
  }

  lemma {:induction false} DaysOfReport(q: Query, cal: Calendar, ivs: seq<Interval>, daily: seq<DayReport>)
    requires q.from < q.to && DaysReported(q, cal, ivs, daily)
    ensures Daily(daily) == InUnits(Total(WindowOf(q, cal), ivs))
  {
    DailySums(q, cal, ivs, daily);
    hide SumClasses, Sum, Cells, DateQueried, OutsideAt;
    DaysAddUp(q, cal, ivs, Dates(daily));
  }

  lemma {:induction false} HourSumIsTotal(q: Query, cal: Calendar, ivs: seq<Interval>)
    requires q.from < q.to
    ensures HourSum(q, cal, ivs) == Total(WindowOf(q, cal), ivs)
  {
    hide SumClasses, Sum, Cells, Hour, OutsideAt, HourNumbers;
    HoursAddUp(q, cal, ivs);
  }

  /**
   Expected and covered time, energy, active time and energy outside the schedule, summed over the
   hours and summed over the days, agree. The summary agrees with them too, except that it has no
   energy outside the schedule when some queried date has no known schedule.
   */
  lemma {:induction false} ReportConserves(q: Query, cal: Calendar, ivs: seq<Interval>, a: Analysis)
    requires q.from < q.to && Reports(q, cal, ivs, a)
    ensures Hourly(a.hourly) == Daily(a.daily)
    ensures WithoutOutside(AmountsOf(a.summary)) == WithoutOutside(Hourly(a.hourly))
    ensures AllKnown(q.schedule, Dates(a.daily)) ==> AmountsOf(a.summary) == Hourly(a.hourly)
    ensures !AllKnown(q.schedule, Dates(a.daily)) ==> a.summary.outsideScheduleKwh == None
    ensures Hourly(a.hourly).expectedSeconds == a.summary.expectedSeconds == Seconds(q.to - q.from)
  {
    hide Reports, Hourly, Daily, AllKnown, Total, WindowOf, HourSum, HoursTile, HoursReported, DaysReported;
    HourSumIsTotal(q, cal, ivs);
    ReportParts(q, cal, ivs, a);
    HoursOfReport(q, cal, ivs, a.hourly);
    DaysOfReport(q, cal, ivs, a.daily);
    SummaryAmounts(q, cal, ivs, a);
    TotalExpected(q, cal, ivs);
  }

  lemma {:induction false} DirectExpected(threshold: real, ivs: seq<Interval>, lo: int, hi: int)
    requires lo <= hi
    ensures Direct(threshold, ivs, lo, hi).expected == Seconds(hi - lo)
  {
    if |ivs| > 0 {
      DirectExpected(threshold, ivs[..|ivs| - 1], lo, hi);
    }
  }

  // ---------- coverage ----------

  ghost predicate WithinExpected(s: Stats) {
    0.0 <= s.coveredSeconds <= s.expectedSeconds && 0.0 <= s.coveragePct <= 100.0
  }

  lemma {:induction false} StatsWithin(w: Window, ivs: seq<Interval>, sel: int -> bool, a: int, b: int, known: bool)
    requires Chained(ivs)
    ensures WithinExpected(StatsOf(Sum(Cells(w, ivs), sel, a, b), known))
  {
    var acc := Sum(Cells(w, ivs), sel, a, b);
    CoverageBound(w, ivs, sel, a, b);
    UncoveredIsIdle(w, ivs, sel, a, b);
    hide Sum;
    if acc.expected > 0.0 {
      Percentage(acc.covered, acc.expected);
    }
  }

  lemma {:induction false} Percentage(part: real, whole: real)
    requires 0.0 <= part <= whole && whole > 0.0
    ensures 0.0 <= 100.0 * part / whole <= 100.0
  {
  }

  lemma {:induction false} HourWithin(q: Query, cal: Calendar, ivs: seq<Interval>, hourly: seq<HourReport>, h: int)
    requires Chained(ivs) && HoursReported(q, cal, ivs, hourly) && 0 <= h < |hourly|
    ensures WithinExpected(hourly[h].stats)
  {
    hide Sum, StatsOf, WithinExpected, Hour, Chained;
    StatsWithin(WindowOf(q, cal), ivs, Class(Hour(q, cal), h), FirstMinute(q), EndMinute(q),
                ScheduleKnown(q.schedule, hourly[h].localDate));
  }

  lemma {:induction false} DayWithin(q: Query, cal: Calendar, ivs: seq<Interval>, daily: seq<DayReport>, i: int)
    requires Chained(ivs) && DaysReported(q, cal, ivs, daily) && 0 <= i < |daily|
    ensures WithinExpected(daily[i].stats)
  {
    hide Sum, StatsOf, WithinExpected, DateQueried, Distinct, Chained;
    StatsWithin(WindowOf(q, cal), ivs, Class(cal.date, daily[i].date), FirstMinute(q), EndMinute(q),
                ScheduleKnown(q.schedule, daily[i].date));
  }

  lemma {:induction false} TotalWithin(w: Window, ivs: seq<Interval>, known: bool)
    requires Chained(ivs)
    ensures WithinExpected(StatsOf(Total(w, ivs), known))
  {
    hide Sum, StatsOf, WithinExpected, Chained;
    StatsWithin(w, ivs, Always(), MinuteOf(w.from), MinuteOf(w.to - 1) + 1, known);
  }

  /** No hour, no day and no summary is ever covered for longer than it lasts. */
  lemma {:induction false} NeverOvercovered(observations: seq<Observation>, q: Query, cal: Calendar, a: Analysis)
    requires Reports(q, cal, IntervalsOf(observations, q.maxGapSeconds), a)
    ensures WithinExpected(a.summary)
    ensures forall h :: 0 <= h < |a.hourly| ==> WithinExpected(a.hourly[h].stats)
    ensures forall i :: 0 <= i < |a.daily| ==> WithinExpected(a.daily[i].stats)
  {
    hide *;
    var ivs := IntervalsOf(observations, q.maxGapSeconds);
    IntervalsChained(observations, q.maxGapSeconds);
    ReportParts(q, cal, ivs, a);
    TotalWithin(WindowOf(q, cal), ivs, AllKnown(q.schedule, Dates(a.daily)));
    forall h | 0 <= h < |a.hourly|
      ensures WithinExpected(a.hourly[h].stats)
    {
      HourWithin(q, cal, ivs, a.hourly, h);
    }
    forall i | 0 <= i < |a.daily|
      ensures WithinExpected(a.daily[i].stats)
    {
      DayWithin(q, cal, ivs, a.daily, i);
    }
  }

  // ---------- closed forms ----------

  // The minutes of hour h are exactly those that its range touches.
  lemma {:induction false} HourMinutes(q: Query, cal: Calendar, hourly: seq<HourReport>, h: int, m: int)
    requires q.from < q.to && HoursTile(q, cal, hourly)
    requires 0 <= h < |hourly| && FirstMinute(q) <= m < EndMinute(q)
    ensures Hour(q, cal)(m) == h <==> MinuteOf(hourly[h].from) <= m <= MinuteOf(hourly[h].to - 1)
  {
    var g := Hour(q, cal)(m);
    assert InHour(q, cal, hourly, m);
    assert Begin(q, m) < End(q, m);
    if g < h {
      HoursOrdered(q, cal, hourly, g, h);
    } else if h < g {
      HoursOrdered(q, cal, hourly, h, g);
    }
  }

  lemma {:induction false} HoursOrdered(q: Query, cal: Calendar, hourly: seq<HourReport>, g: int, h: int)
    requires HoursTile(q, cal, hourly)
    requires 0 <= g < h < |hourly|
    ensures hourly[g].to <= hourly[h].from
    decreases h - g
  {
    if g + 1 < h {
      HoursOrdered(q, cal, hourly, g, h - 1);
      assert hourly[h - 1].to == hourly[h].from;
    }
  }

  lemma {:induction false} HourInsideQuery(q: Query, cal: Calendar, hourly: seq<HourReport>, h: int)
    requires q.from < q.to && HoursTile(q, cal, hourly)
    requires 0 <= h < |hourly|
    ensures q.from <= hourly[h].from < hourly[h].to <= q.to
    ensures FirstMinute(q) <= MinuteOf(hourly[h].from) <= MinuteOf(hourly[h].to - 1) < EndMinute(q)
  {
    if h > 0 {
      HoursOrdered(q, cal, hourly, 0, h);
    }
    if h < |hourly| - 1 {
      HoursOrdered(q, cal, hourly, h, |hourly| - 1);
    }
  }

  lemma {:induction false} HourSelects(q: Query, cal: Calendar, hourly: seq<HourReport>, h: int)
    requires q.from < q.to && HoursTile(q, cal, hourly) && 0 <= h < |hourly|
    ensures forall m :: FirstMinute(q) <= m < EndMinute(q) ==>
      Class(Hour(q, cal), h)(m) == (MinuteOf(hourly[h].from) <= m < MinuteOf(hourly[h].to - 1) + 1)
  {
    hide HoursTile, Hour, FirstMinute, EndMinute, MinuteOf;
    forall m | FirstMinute(q) <= m < EndMinute(q)
      ensures Class(Hour(q, cal), h)(m) == (MinuteOf(hourly[h].from) <= m < MinuteOf(hourly[h].to - 1) + 1)
    {
      HourMinutes(q, cal, hourly, h, m);
    }
  }

  /** Each hour holds the closed form of its own range: power times clipped length, over the intervals. */
  lemma {:induction false} HourIsDirect(q: Query, cal: Calendar, ivs: seq<Interval>, hourly: seq<HourReport>, h: int)
    requires q.from < q.to && HoursTile(q, cal, hourly) && 0 <= h < |hourly|
    ensures Inside(HourTotal(q, cal, ivs, h)) == Direct(q.threshold, ivs, hourly[h].from, hourly[h].to)
  {
    var x, y := MinuteOf(hourly[h].from), MinuteOf(hourly[h].to - 1) + 1;
    HourInsideQuery(q, cal, hourly, h);
    HourSelects(q, cal, hourly, h);
    HourBounds(q, cal, hourly, h);
    hide Sum, Cells, Direct, Hour, HoursTile, MinuteOf, FirstMinute, EndMinute, Max, Min, Class, OutsideAt;
    RestrictSum(Cells(WindowOf(q, cal), ivs), Class(Hour(q, cal), h), FirstMinute(q), x, y, EndMinute(q));
    SumIsDirect(WindowOf(q, cal), ivs, x, y);
  }

  lemma {:induction false} HourBounds(q: Query, cal: Calendar, hourly: seq<HourReport>, h: int)
    requires q.from < q.to && HoursTile(q, cal, hourly)
    requires 0 <= h < |hourly|
    ensures Max(q.from, MINUTE_MS * MinuteOf(hourly[h].from)) == hourly[h].from
    ensures Min(q.to, MINUTE_MS * (MinuteOf(hourly[h].to - 1) + 1)) == hourly[h].to
  {
    HourInsideQuery(q, cal, hourly, h);
    var x, y := MinuteOf(hourly[h].from), MinuteOf(hourly[h].to - 1);
    HourMinutes(q, cal, hourly, h, x);
    HourMinutes(q, cal, hourly, h, y);
    assert InHour(q, cal, hourly, x) && InHour(q, cal, hourly, y);
    hide HoursTile, HourIndex;
  }

  lemma {:induction false} RestrictSum(c: int -> Acc, sel: int -> bool, a: int, x: int, y: int, b: int)
    requires a <= x <= y <= b
    requires forall m :: a <= m < b ==> sel(m) == (x <= m < y)
    ensures Sum(c, sel, a, b) == Sum(c, Always(), x, y)
  {
    SumWiden(c, sel, a, x, y, b);
    SumAgree(c, c, sel, Always(), x, y);
  }

  // ---------- additivity over queries ----------

  // The dates of a part of the query are dates of the query.
  lemma {:induction false} DateOfPart(q: Query, cal: Calendar, q': Query, d: int)
    requires q.from <= q'.from < q'.to <= q.to && DateQueried(q', cal, d)
    ensures DateQueried(q, cal, d)
  {
    hide MinuteOf;
    MinuteMonotone(q.from, q'.from);
    MinuteMonotone(q'.to - 1, q.to - 1);
  }

  lemma {:induction false} DateListed(q: Query, cal: Calendar, ivs: seq<Interval>, a: Analysis, d: int)
    requires Reports(q, cal, ivs, a)
    ensures d in Dates(a.daily) <==> DateQueried(q, cal, d)
  {
    hide HoursTile, HoursReported, StatsOf, Total, DateQueried, Dates, AllKnown, ScheduleKnown;
  }

  lemma {:induction false} KnownInPart(q: Query, cal: Calendar, ivs: seq<Interval>, a: Analysis, q': Query,
      a': Analysis)
    requires q.from <= q'.from < q'.to <= q.to && q'.schedule == q.schedule
    requires Reports(q, cal, ivs, a) && Reports(q', cal, ivs, a') && AllKnown(q.schedule, Dates(a.daily))
    ensures AllKnown(q'.schedule, Dates(a'.daily))
  {
    hide Reports, ScheduleKnown, Dates, DateQueried;
    var dates := Dates(a'.daily);
    forall i | 0 <= i < |dates|
      ensures ScheduleKnown(q'.schedule, dates[i])
    {
      DateListed(q', cal, ivs, a', dates[i]);
      DateOfPart(q, cal, q', dates[i]);
      DateListed(q, cal, ivs, a, dates[i]);
    }
  }

  lemma {:induction false} SplitAmounts(t1: Acc, t2: Acc, x: Amounts, y: Amounts)
    requires WithoutOutside(x) == WithoutOutside(InUnits(t1)) && WithoutOutside(y) == WithoutOutside(InUnits(t2))
    ensures WithoutOutside(InUnits(Plus(t1, t2))) == WithoutOutside(Add(x, y))
    ensures x == InUnits(t1) && y == InUnits(t2) ==> InUnits(Plus(t1, t2)) == Add(x, y)
    ensures Plus(t1, t2).peak == MaxPeak(t1.peak, t2.peak)
  {
    hide InUnits, MaxPeak, Zero;
    UnitsAdd(t1, t2);
  }

  /**
   Querying [from, mid) and [mid, to) and adding gives [from, to), for every mid in between: expected
   and covered time, energy, active time, and the energy outside the schedule where it is known.
   */
  lemma {:induction false} QueryAdditivity(q: Query, cal: Calendar, ivs: seq<Interval>, mid: int, a: Analysis,
      a1: Analysis, a2: Analysis)
    requires q.from < mid < q.to
    requires Reports(q, cal, ivs, a)
    requires Reports(q.(to := mid), cal, ivs, a1) && Reports(q.(from := mid), cal, ivs, a2)
    ensures var sum := Add(AmountsOf(a1.summary), AmountsOf(a2.summary));
            && WithoutOutside(AmountsOf(a.summary)) == WithoutOutside(sum)
            && (AllKnown(q.schedule, Dates(a.daily)) ==> AmountsOf(a.summary) == sum)
    ensures a.summary.peakPowerW == MaxPeak(a1.summary.peakPowerW, a2.summary.peakPowerW)
  {
    var w, q1, q2 := WindowOf(q, cal), q.(to := mid), q.(from := mid);
    assert WindowOf(q1, cal) == w.(to := mid) && WindowOf(q2, cal) == w.(from := mid);
    hide Total, Reports, WindowOf, AmountsOf, AllKnown, InUnits, Plus, Add, WithoutOutside, MaxPeak, Dates;
    RangeAdditivity(w, ivs, mid);
    SummaryAmounts(q, cal, ivs, a);
    SummaryAmounts(q1, cal, ivs, a1);
    SummaryAmounts(q2, cal, ivs, a2);
    SplitAmounts(Total(w.(to := mid), ivs), Total(w.(from := mid), ivs), AmountsOf(a1.summary), AmountsOf(a2.summary));
    if AllKnown(q.schedule, Dates(a.daily)) {
      KnownInPart(q, cal, ivs, a, q1, a1);
      KnownInPart(q, cal, ivs, a, q2, a2);
    }
  }

  // ---------- order of the readings ----------

  // All readings at time t say the same usable thing.
  ghost predicate Agree(observations: seq<Observation>, t: int, power: Option<real>, series: Option<string>) {
    && (exists o :: o in observations && o.at == Some(t))
    && (forall o :: o in observations && o.at == Some(t) ==> CleanPower(o) == power && o.series == series)
  }

  ghost predicate Timed(observations: seq<Observation>, t: int) {
    exists o :: o in observations && o.at == Some(t)
  }

  lemma {:induction false} IntakeIsFaithful(observations: seq<Observation>, t: int)
    ensures var s := TakenIn(observations);
            && (t in s.byTime <==> Timed(observations, t))
            && (t in s.byTime ==> t in s.seriesByTime)
            && (t in s.byTime && s.byTime[t].Some? ==> Agree(observations, t, s.byTime[t], s.seriesByTime[t]))
            && (forall p, e :: Agree(observations, t, p, e) ==>
                 t in s.byTime && s.byTime[t] == p && s.seriesByTime[t] == e)
  {
    IntakeConsistent(observations);
    if |observations| > 0 {
      var front, last := observations[..|observations| - 1], observations[|observations| - 1];
      assert observations == front + [last];
      assert forall o :: o in observations <==> o in front || o == last;
      IntakeIsFaithful(front, t);
      IntakeConsistent(front);
      if last.at != Some(t) {
        assert Timed(observations, t) <==> Timed(front, t);
        assert forall p, e :: Agree(observations, t, p, e) <==> Agree(front, t, p, e);
      } else {
        assert Timed(observations, t);
        assert forall p, e :: Agree(observations, t, p, e) && Timed(front, t) ==> Agree(front, t, p, e);
      }
    }
  }

  // The series of an unusable sample plays no part.
  function Normal(x: Sample): Sample {
    if x.power.None? then x.(series := None) else x
  }

  function Normalised(samples: seq<Sample>): (r: seq<Sample>)
    ensures |r| == |samples| && forall i :: 0 <= i < |r| ==> r[i] == Normal(samples[i])
  {
    seq(|samples|, i requires 0 <= i < |samples| => Normal(samples[i]))
  }

  lemma {:induction false} BracketedNormalised(samples: seq<Sample>, maxGapSeconds: real)
    ensures Bracketed(Normalised(samples), maxGapSeconds) == Bracketed(samples, maxGapSeconds)
  {
    var n := |samples|;
    if n >= 2 {
      BracketedNormalised(samples[..n - 1], maxGapSeconds);
      assert Normalised(samples)[..n - 1] == Normalised(samples[..n - 1]);
    }
  }

  ghost predicate SameReadings(a: seq<Observation>, b: seq<Observation>) {
    forall o :: o in a <==> o in b
  }

  lemma {:induction false} SameTimes(a: seq<Observation>, b: seq<Observation>, t: int)
    requires SameReadings(a, b)
    ensures t in TakenIn(a).byTime ==> t in TakenIn(b).byTime
    ensures t in TakenIn(a).byTime ==> t in TakenIn(a).seriesByTime && t in TakenIn(b).seriesByTime
    ensures t in TakenIn(a).byTime ==>
              Normal(Sample(t, TakenIn(a).byTime[t], TakenIn(a).seriesByTime[t]))
              == Normal(Sample(t, TakenIn(b).byTime[t], TakenIn(b).seriesByTime[t]))
  {
    IntakeIsFaithful(a, t);
    IntakeIsFaithful(b, t);
    assert Timed(a, t) <==> Timed(b, t);
    assert forall p, e :: Agree(a, t, p, e) <==> Agree(b, t, p, e);
  }

  lemma {:induction false} NormalisedMembers(a: seq<Observation>, b: seq<Observation>, y: Sample)
    requires SameReadings(a, b) && y in Normalised(SamplesOf(a))
    ensures y in Normalised(SamplesOf(b))
  {
    IntakeConsistent(a);
    IntakeConsistent(b);
    SamplesSorted(TakenIn(a));
    SamplesSorted(TakenIn(b));
    var i :| 0 <= i < |SamplesOf(a)| && Normal(SamplesOf(a)[i]) == y;
    var x := SamplesOf(a)[i];
    assert x in SamplesOf(a);
    SameTimes(a, b, x.at);
    var x' := Sample(x.at, TakenIn(b).byTime[x.at], TakenIn(b).seriesByTime[x.at]);
    assert x' in SamplesOf(b);
    var j :| 0 <= j < |SamplesOf(b)| && SamplesOf(b)[j] == x';
    assert Normalised(SamplesOf(b))[j] == y;
  }

  /** The integrated intervals depend only on the set of readings: not on their order, not on repetitions. */
  lemma {:induction false} OrderIrrelevant(a: seq<Observation>, b: seq<Observation>, maxGapSeconds: real)
    requires SameReadings(a, b)
    ensures IntervalsOf(a, maxGapSeconds) == IntervalsOf(b, maxGapSeconds)
  {
    var key := (x: Sample) => x.at;
    SamplesOfObservations(a);
    SamplesOfObservations(b);
    forall y
      ensures y in Normalised(SamplesOf(a)) <==> y in Normalised(SamplesOf(b))
    {
      if y in Normalised(SamplesOf(a)) {
        NormalisedMembers(a, b, y);
      }
      if y in Normalised(SamplesOf(b)) {
        NormalisedMembers(b, a, y);
      }
    }
    hide SamplesOf, Normal;
    NormalisedSorted(SamplesOf(a));
    NormalisedSorted(SamplesOf(b));
    StableSort.StrictlySortedUnique(Normalised(SamplesOf(a)), Normalised(SamplesOf(b)), key);
    BracketedNormalised(SamplesOf(a), maxGapSeconds);
    BracketedNormalised(SamplesOf(b), maxGapSeconds);
  }

  lemma {:induction false} NormalisedSorted(samples: seq<Sample>)
    requires StableSort.StrictlySortedBy(samples, (x: Sample) => x.at)
    ensures StableSort.StrictlySortedBy(Normalised(samples), (x: Sample) => x.at)
  {
    var key := (x: Sample) => x.at;
    forall i, j | 0 <= i < j < |samples|
      ensures key(Normalised(samples)[i]) < key(Normalised(samples)[j])
    {
      assert key(samples[i]) < key(samples[j]);
    }
  }

  // Every parsable reading is either the first of its time or a duplicate.
  lemma {:induction false} DuplicatesCounted(observations: seq<Observation>)
    ensures TakenIn(observations).duplicate + |TakenIn(observations).order| == TimedCount(observations)
    ensures TakenIn(observations).conflicting <= TakenIn(observations).duplicate
  {
    if |observations| > 0 {
      DuplicatesCounted(observations[..|observations| - 1]);
    }
  }

  function TimedCount(observations: seq<Observation>): nat {
    if |observations| == 0 then 0
    else TimedCount(observations[..|observations| - 1]) + if observations[|observations| - 1].at.Some? then 1 else 0
  }

  lemma {:induction false} ThreeTaken(x: Observation, y: Observation, z: Observation)
    ensures TakenIn([x, y, z]) == TakeOne(TakeOne(TakeOne(TakenIn([]), x), y), z)
  {
    assert [x, y, z][..2] == [x, y] && [x, y][..1] == [x] && [x][..0] == [];
    assert TakenIn([x, y, z]) == TakeOne(TakenIn([x, y]), z);
    assert TakenIn([x, y]) == TakeOne(TakenIn([x]), y);
  }

  // The count of conflicts, unlike the intervals, does depend on the order of the readings.
  lemma {:induction false} ConflictsDependOnOrder()
    ensures exists a: seq<Observation>, b: seq<Observation> ::
      multiset(a) == multiset(b) && TakenIn(a).conflicting != TakenIn(b).conflicting
  {
    var x, y := Observation(Some(0), Some(5.0), None), Observation(Some(0), Some(7.0), None);
    var a, b := [x, x, y], [x, y, x];
    ThreeTaken(x, x, y);
    ThreeTaken(x, y, x);
    assert TakenIn([]) == Intake([], map[], map[], 0, 0, 0);
    hide TakenIn;
    var s := TakeOne(Intake([], map[], map[], 0, 0, 0), x);
    assert s == Intake([0], map[0 := Some(5.0)], map[0 := None], 0, 0, 0);
    assert multiset(a) == multiset(b);
  }
}
