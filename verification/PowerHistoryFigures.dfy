/**
 What the figures of a power history report are, told from the readings, the query and the local
 clock alone: which intervals count, how long each of them lies in a minute of a row, and which
 minutes lie outside the schedule.
 */
module PowerHistoryFigures {
  import opened Wrappers
  import opened PowerIntegral
  import opened PowerHistory
  import opened PowerHistoryLaws
  import StableSort

  // ---------- the clock ----------

  // Times of the day as a schedule text gives them.
  predicate ClockSchedule(s: Schedule) { 0 <= s.start < 1440 && 0 <= s.end < 1440 && s.start != s.end }

  ghost predicate ClockCalendar(cal: Calendar) { forall m :: 0 <= cal.minuteOfDay(m) < 1440 }

  /** Around the clock from the start of the schedule, the minute comes before its end. */
  lemma {:induction false} InsideScheduleAroundClock(s: Schedule, minute: int)
    requires ClockSchedule(s) && 0 <= minute < 1440
    ensures InsideSchedule(Some(s), minute) <==> (minute - s.start) % 1440 < (s.end - s.start) % 1440
  {
    AroundClock(minute - s.start);
    AroundClock(s.end - s.start);
  }

  lemma {:induction false} AroundClock(d: int)
    requires -1440 < d < 1440
    ensures d % 1440 == if d < 0 then d + 1440 else d
  {
  }

  predicate DateKnown(schedule: Option<Schedule>, date: int) {
    && schedule.Some?
    && (schedule.value.effectiveFrom.Some? ==> schedule.value.effectiveFrom.value <= date)
  }

  // The minute belongs to a date with a known schedule and lies outside it.
  predicate OutOfHours(schedule: Option<Schedule>, cal: Calendar, m: int) {
    && DateKnown(schedule, cal.date(m))
    && (cal.minuteOfDay(m) - schedule.value.start) % 1440 >= (schedule.value.end - schedule.value.start) % 1440
  }

  ghost predicate Clocked(q: Query, cal: Calendar) {
    ClockCalendar(cal) && (q.schedule.Some? ==> ClockSchedule(q.schedule.value))
  }

  lemma {:induction false} OutsideIsOutOfHours(q: Query, cal: Calendar, m: int)
    requires Clocked(q, cal)
    ensures WindowOf(q, cal).outsideAt(m) == OutOfHours(q.schedule, cal, m)
  {
    if q.schedule.Some? {
      InsideScheduleAroundClock(q.schedule.value, cal.minuteOfDay(m));
    }
  }

  // ---------- sums over intervals and minutes ----------

  // Seconds of an interval inside the query and inside minute m.
  function SecondsIn(q: Query, i: Interval, m: int): real {
    var lo := if q.from < i.start then i.start else q.from;
    var hi := if i.end < q.to then i.end else q.to;
    var begin := if lo < 60000 * m then 60000 * m else lo;
    var end := if 60000 * (m + 1) < hi then 60000 * (m + 1) else hi;
    if begin < end then (end - begin) as real / 1000.0 else 0.0
  }

  // Seconds of the query inside minute m.
  function SecondsOf(q: Query, m: int): real { SecondsIn(q, Interval(q.from, q.to, 0.0), m) }

  function InMinute(q: Query, ivs: seq<Interval>, weight: real -> real, m: int): real {
    if |ivs| == 0 then 0.0
    else InMinute(q, ivs[..|ivs| - 1], weight, m)
         + weight(ivs[|ivs| - 1].power) * SecondsIn(q, ivs[|ivs| - 1], m)
  }

  // Weight times length, over the selected minutes of [a, b) and all intervals.
  ghost function Figure(q: Query, ivs: seq<Interval>, weight: real -> real, sel: int -> bool, a: int, b: int): real
    decreases b - a
  {
    if b <= a then 0.0
    else Figure(q, ivs, weight, sel, a, b - 1) + if sel(b - 1) then InMinute(q, ivs, weight, b - 1) else 0.0
  }

  ghost function Expected(q: Query, sel: int -> bool, a: int, b: int): real
    decreases b - a
  {
    if b <= a then 0.0 else Expected(q, sel, a, b - 1) + if sel(b - 1) then SecondsOf(q, b - 1) else 0.0
  }

  function Time(): real -> real { power => 1.0 }

  function Power(): real -> real { power => power }

  function ActiveTime(threshold: real): real -> real { power => if threshold <= power then 1.0 else 0.0 }

  ghost function OutsideOf(q: Query, cal: Calendar, sel: int -> bool): int -> bool {
    m => sel(m) && OutOfHours(q.schedule, cal, m)
  }

  lemma {:induction false} OverlapIsSecondsIn(q: Query, cal: Calendar, i: Interval, m: int)
    ensures Seconds(Overlap(m, Max(q.from, i.start), Min(q.to, i.end))) == SecondsIn(q, i, m)
  {
  }

  lemma {:induction false} ContributionFigures(q: Query, cal: Calendar, i: Interval, m: int)
    requires Clocked(q, cal)
    ensures var c, seconds := Contribution(WindowOf(q, cal), i, m), SecondsIn(q, i, m);
            && c.expected == 0.0 && c.covered == seconds && c.watt == i.power * seconds
            && c.active == ActiveTime(q.threshold)(i.power) * seconds
            && c.outside == (if OutOfHours(q.schedule, cal, m) then i.power * seconds else 0.0)
            && c.peak == (if seconds > 0.0 then Some(i.power) else None)
  {
    hide OutOfHours, SecondsIn, OutsideAt, Overlap, Max, Min;
    OverlapIsSecondsIn(q, cal, i, m);
    OutsideIsOutOfHours(q, cal, m);
    TimesZero(i.power);
  }

  lemma {:induction false} TimesZero(x: real)
    ensures x * 0.0 == 0.0
  {
  }

  lemma {:induction false} CellFigures(q: Query, cal: Calendar, ivs: seq<Interval>, m: int)
    requires Clocked(q, cal)
    ensures var c := Cell(WindowOf(q, cal), ivs, m);
            && c.covered == InMinute(q, ivs, Time(), m) && c.watt == InMinute(q, ivs, Power(), m)
            && c.active == InMinute(q, ivs, ActiveTime(q.threshold), m)
            && c.outside == (if OutOfHours(q.schedule, cal, m) then InMinute(q, ivs, Power(), m) else 0.0)
            && c.expected == SecondsOf(q, m)
  {
    hide Clocked, OutOfHours, SecondsIn, Contribution, ActiveTime, WindowOf, MaxPeak;
    if |ivs| == 0 {
      ExpectationFigures(q, cal, m);
    } else {
      CellFigures(q, cal, ivs[..|ivs| - 1], m);
      ContributionFigures(q, cal, ivs[|ivs| - 1], m);
    }
  }

  lemma {:induction false} ExpectationFigures(q: Query, cal: Calendar, m: int)
    ensures Expectation(WindowOf(q, cal), m) == Zero().(expected := SecondsOf(q, m))
  {
  }

  lemma {:induction false} SumFigures(q: Query, cal: Calendar, ivs: seq<Interval>, sel: int -> bool, a: int, b: int)
    requires Clocked(q, cal)
    ensures var sum := Sum(Cells(WindowOf(q, cal), ivs), sel, a, b);
            && sum.covered == Figure(q, ivs, Time(), sel, a, b)
            && sum.watt == Figure(q, ivs, Power(), sel, a, b)
            && sum.active == Figure(q, ivs, ActiveTime(q.threshold), sel, a, b)
            && sum.outside == Figure(q, ivs, Power(), OutsideOf(q, cal, sel), a, b)
            && sum.expected == Expected(q, sel, a, b)
    decreases b - a
  {
    hide Clocked, OutOfHours, InMinute, SecondsOf, Cell, WindowOf, Plus, Time, Power, ActiveTime;
    if a < b {
      var front := Sum(Cells(WindowOf(q, cal), ivs), sel, a, b - 1);
      SumFigures(q, cal, ivs, sel, a, b - 1);
      CellFigures(q, cal, ivs, b - 1);
      PlusFields(front, Cell(WindowOf(q, cal), ivs, b - 1));
      PlusFields(front, Zero());
    }
  }

  lemma {:induction false} PlusFields(x: Acc, y: Acc)
    ensures var z := Plus(x, y);
            && z.expected == x.expected + y.expected && z.covered == x.covered + y.covered && z.watt == x.watt + y.watt
            && z.active == x.active + y.active && z.outside == x.outside + y.outside
  {
  }

  // ---------- peaks ----------

  // The interval has time in a selected minute.
  ghost predicate Touches(q: Query, i: Interval, sel: int -> bool, a: int, b: int) {
    exists m :: a <= m < b && sel(m) && SecondsIn(q, i, m) > 0.0
  }

  // The greatest power of all intervals that touch the selected minutes, if any does.
  ghost predicate IsPeak(peak: Option<real>, q: Query, ivs: seq<Interval>, sel: int -> bool, a: int, b: int) {
    && (peak.Some? ==> exists i :: i in ivs && Touches(q, i, sel, a, b) && i.power == peak.value)
    && (forall i :: i in ivs && Touches(q, i, sel, a, b) ==> peak.Some? && i.power <= peak.value)
  }

  ghost predicate IsMinutePeak(peak: Option<real>, q: Query, ivs: seq<Interval>, m: int) {
    && (peak.Some? ==> exists i :: i in ivs && SecondsIn(q, i, m) > 0.0 && i.power == peak.value)
    && (forall i :: i in ivs && SecondsIn(q, i, m) > 0.0 ==> peak.Some? && i.power <= peak.value)
  }

  lemma {:induction false} CellPeak(q: Query, cal: Calendar, ivs: seq<Interval>, m: int)
    requires Clocked(q, cal)
    ensures IsMinutePeak(Cell(WindowOf(q, cal), ivs, m).peak, q, ivs, m)
  {
    hide Clocked, OutOfHours, SecondsIn, Contribution, ActiveTime, WindowOf;
    if |ivs| == 0 {
      ExpectationFigures(q, cal, m);
    } else {
      var front, last := ivs[..|ivs| - 1], ivs[|ivs| - 1];
      assert ivs == front + [last];
      CellPeak(q, cal, front, m);
      ContributionFigures(q, cal, last, m);
      var peak := Cell(WindowOf(q, cal), front, m).peak;
      MinutePeakMore(peak, q, front, last, m);
    }
  }

  lemma {:induction false} MinutePeakMore(peak: Option<real>, q: Query, front: seq<Interval>, last: Interval, m: int)
    requires IsMinutePeak(peak, q, front, m)
    ensures IsMinutePeak(MaxPeak(peak, if SecondsIn(q, last, m) > 0.0 then Some(last.power) else None), q,
                         front + [last], m)
  {
    hide SecondsIn;
    var ivs, more := front + [last], if SecondsIn(q, last, m) > 0.0 then Some(last.power) else None;
    var r := MaxPeak(peak, more);
    assert last in ivs && forall i :: i in ivs <==> i in front || i == last;
    if r.Some? && r == peak {
      var i :| i in front && SecondsIn(q, i, m) > 0.0 && i.power == peak.value;
      assert i in ivs;
    }
  }

  lemma {:induction false} TouchesMore(q: Query, i: Interval, sel: int -> bool, a: int, b: int)
    requires a < b
    ensures Touches(q, i, sel, a, b)
        <==> Touches(q, i, sel, a, b - 1) || (sel(b - 1) && SecondsIn(q, i, b - 1) > 0.0)
  {
    hide SecondsIn;
    if sel(b - 1) && SecondsIn(q, i, b - 1) > 0.0 {
      assert a <= b - 1 < b;
    }
  }

  lemma {:induction false} PeakMore(peak: Option<real>, more: Option<real>, q: Query, ivs: seq<Interval>,
      sel: int -> bool, a: int, b: int)
    requires a < b && IsPeak(peak, q, ivs, sel, a, b - 1)
    requires if sel(b - 1) then IsMinutePeak(more, q, ivs, b - 1) else more == None
    ensures IsPeak(MaxPeak(peak, more), q, ivs, sel, a, b)
  {
    hide SecondsIn, Touches;
    forall i: Interval
      ensures Touches(q, i, sel, a, b)
          <==> Touches(q, i, sel, a, b - 1) || (sel(b - 1) && SecondsIn(q, i, b - 1) > 0.0)
    {
      TouchesMore(q, i, sel, a, b);
    }
  }

  lemma {:induction false} SumPeak(q: Query, cal: Calendar, ivs: seq<Interval>, sel: int -> bool, a: int, b: int)
    requires Clocked(q, cal)
    ensures IsPeak(Sum(Cells(WindowOf(q, cal), ivs), sel, a, b).peak, q, ivs, sel, a, b)
    decreases b - a
  {
    hide Clocked, SecondsIn, Cell, WindowOf, MaxPeak, IsMinutePeak;
    if a < b {
      SumPeak(q, cal, ivs, sel, a, b - 1);
      CellPeak(q, cal, ivs, b - 1);
      PeakMore(Sum(Cells(WindowOf(q, cal), ivs), sel, a, b - 1).peak,
               if sel(b - 1) then Cell(WindowOf(q, cal), ivs, b - 1).peak else None, q, ivs, sel, a, b);
    }
  }

  // ---------- the rows of a report ----------

  function Begins(q: Query): int { q.from / 60000 }

  function Ends(q: Query): int { (q.to - 1) / 60000 + 1 }

  // Every figure of a row whose minutes are selected.
  ghost predicate Tells(s: Stats, q: Query, cal: Calendar, ivs: seq<Interval>, sel: int -> bool, known: bool) {
    var covered := Figure(q, ivs, Time(), sel, Begins(q), Ends(q));
    var watt := Figure(q, ivs, Power(), sel, Begins(q), Ends(q));
    var active := Figure(q, ivs, ActiveTime(q.threshold), sel, Begins(q), Ends(q));
    var outside := Figure(q, ivs, Power(), OutsideOf(q, cal, sel), Begins(q), Ends(q));
    var expected := Expected(q, sel, Begins(q), Ends(q));
    && s.coveredSeconds == covered && s.expectedSeconds == expected
    && (covered <= 0.0 ==>
         s.energyKwh == None && s.averagePowerW == None && s.activeMinutes == None && s.outsideScheduleKwh == None)
    && (covered > 0.0 ==>
         && s.energyKwh == Some(watt / 3600000.0) && s.averagePowerW == Some(watt / covered)
         && s.activeMinutes == Some(active / 60.0)
         && s.outsideScheduleKwh == (if known then Some(outside / 3600000.0) else None))
    && s.coveragePct == (if expected > 0.0 then 100.0 * covered / expected else 0.0)
    && IsPeak(s.peakPowerW, q, ivs, sel, Begins(q), Ends(q))
  }

  lemma {:induction false} StatsTell(q: Query, cal: Calendar, ivs: seq<Interval>, sel: int -> bool, known: bool)
    requires Clocked(q, cal)
    ensures Tells(StatsOf(Sum(Cells(WindowOf(q, cal), ivs), sel, FirstMinute(q), EndMinute(q)), known), q, cal, ivs,
                  sel, known)
  {
    hide Clocked, Figure, Expected, IsPeak, Time, Power, ActiveTime, OutsideOf, Cells, WindowOf, Sum;
    SumFigures(q, cal, ivs, sel, FirstMinute(q), EndMinute(q));
    SumPeak(q, cal, ivs, sel, FirstMinute(q), EndMinute(q));
  }

  // The minutes of a row from lo to hi.
  function Within(lo: int, hi: int): int -> bool { m => lo / 60000 <= m <= (hi - 1) / 60000 }

  function OfDate(cal: Calendar, date: int): int -> bool { m => cal.date(m) == date }

  lemma {:induction false} KnownIsKnown(schedule: Option<Schedule>, date: int)
    ensures ScheduleKnown(schedule, date) == DateKnown(schedule, date)
  {
  }

  lemma {:induction false} HourTells(q: Query, cal: Calendar, ivs: seq<Interval>, hourly: seq<HourReport>, h: nat)
    requires q.from < q.to && Clocked(q, cal) && h < |hourly|
    requires HoursTile(q, cal, hourly) && HoursReported(q, cal, ivs, hourly)
    ensures Tells(hourly[h].stats, q, cal, ivs, Within(hourly[h].from, hourly[h].to),
                  DateKnown(q.schedule, hourly[h].localDate))
  {
    hide Clocked, Tells, StatsOf, Cells, WindowOf, HoursTile, Hour, DateKnown, ScheduleKnown, Sum;
    var row, known := Within(hourly[h].from, hourly[h].to), ScheduleKnown(q.schedule, hourly[h].localDate);
    KnownIsKnown(q.schedule, hourly[h].localDate);
    forall m | FirstMinute(q) <= m < EndMinute(q)
      ensures Class(Hour(q, cal), h)(m) == row(m)
    {
      HourMinutes(q, cal, hourly, h, m);
    }
    SumAgree(Cells(WindowOf(q, cal), ivs), Cells(WindowOf(q, cal), ivs), Class(Hour(q, cal), h), row, FirstMinute(q),
             EndMinute(q));
    StatsTell(q, cal, ivs, row, known);
  }

  lemma {:induction false} DayTells(q: Query, cal: Calendar, ivs: seq<Interval>, date: int, s: Stats)
    requires Clocked(q, cal) && s == StatsOf(DayTotal(q, cal, ivs, date), ScheduleKnown(q.schedule, date))
    ensures Tells(s, q, cal, ivs, OfDate(cal, date), DateKnown(q.schedule, date))
  {
    hide Clocked, Tells, StatsOf, Cells, WindowOf, DateKnown, ScheduleKnown, Sum, FirstMinute, EndMinute;
    KnownIsKnown(q.schedule, date);
    forall m
      ensures Class(cal.date, date)(m) == OfDate(cal, date)(m)
    {
    }
    SumAgree(Cells(WindowOf(q, cal), ivs), Cells(WindowOf(q, cal), ivs), Class(cal.date, date), OfDate(cal, date),
             FirstMinute(q), EndMinute(q));
    StatsTell(q, cal, ivs, OfDate(cal, date), ScheduleKnown(q.schedule, date));
  }

  lemma {:induction false} SummaryTells(q: Query, cal: Calendar, ivs: seq<Interval>, a: Analysis)
    requires Clocked(q, cal) && Reports(q, cal, ivs, a)
    ensures Tells(a.summary, q, cal, ivs, Always(),
                  forall m :: Begins(q) <= m < Ends(q) ==> DateKnown(q.schedule, cal.date(m)))
  {
    hide Clocked, Tells, StatsOf, HoursTile, HoursReported, Sum, Cells, WindowOf;
    StatsTell(q, cal, ivs, Always(), AllKnown(q.schedule, Dates(a.daily)));
    KnownDates(q, cal, a.daily);
    TotalIs(q, cal, ivs);
  }

  lemma {:induction false} TotalIs(q: Query, cal: Calendar, ivs: seq<Interval>)
    ensures Total(WindowOf(q, cal), ivs) == Sum(Cells(WindowOf(q, cal), ivs), Always(), FirstMinute(q), EndMinute(q))
  {
  }

  lemma {:induction false} KnownDates(q: Query, cal: Calendar, daily: seq<DayReport>)
    requires forall d :: d in Dates(daily) <==> DateQueried(q, cal, d)
    ensures AllKnown(q.schedule, Dates(daily))
        <==> forall m :: Begins(q) <= m < Ends(q) ==> DateKnown(q.schedule, cal.date(m))
  {
    hide DateKnown, ScheduleKnown;
    var dates := Dates(daily);
    if AllKnown(q.schedule, dates) {
      forall m | Begins(q) <= m < Ends(q)
        ensures DateKnown(q.schedule, cal.date(m))
      {
        assert DateQueried(q, cal, cal.date(m)) && cal.date(m) in dates;
        var i :| 0 <= i < |dates| && dates[i] == cal.date(m);
        KnownIsKnown(q.schedule, dates[i]);
      }
    } else {
      var i :| 0 <= i < |dates| && !ScheduleKnown(q.schedule, dates[i]);
      assert dates[i] in dates && DateQueried(q, cal, dates[i]);
      var m :| FirstMinute(q) <= m < EndMinute(q) && cal.date(m) == dates[i];
      KnownIsKnown(q.schedule, dates[i]);
      assert Begins(q) <= m < Ends(q);
    }
  }

  /**
   Every figure of a report, told minute by minute: covered and expected time, energy, average and peak
   power, active time, coverage, and the energy of the minutes whose date has a known schedule and that
   lie outside it around the clock.
   */
  lemma {:induction false} ReportTells(q: Query, cal: Calendar, ivs: seq<Interval>, a: Analysis)
    requires q.from < q.to && Clocked(q, cal) && Reports(q, cal, ivs, a)
    ensures Tells(a.summary, q, cal, ivs, Always(),
                  forall m :: Begins(q) <= m < Ends(q) ==> DateKnown(q.schedule, cal.date(m)))
    ensures forall h :: 0 <= h < |a.hourly| ==>
              Tells(a.hourly[h].stats, q, cal, ivs, Within(a.hourly[h].from, a.hourly[h].to),
                    DateKnown(q.schedule, a.hourly[h].localDate))
    ensures forall i :: 0 <= i < |a.daily| ==>
              Tells(a.daily[i].stats, q, cal, ivs, OfDate(cal, a.daily[i].date),
                    DateKnown(q.schedule, a.daily[i].date))
  {
    hide Clocked, Tells, Reports, StatsOf, DateKnown, HoursTile, DayTotal, Within, OfDate;
    SummaryTells(q, cal, ivs, a);
    ReportParts(q, cal, ivs, a);
    forall h | 0 <= h < |a.hourly|
      ensures Tells(a.hourly[h].stats, q, cal, ivs, Within(a.hourly[h].from, a.hourly[h].to),
                    DateKnown(q.schedule, a.hourly[h].localDate))
    {
      HourTells(q, cal, ivs, a.hourly, h);
    }
    forall i | 0 <= i < |a.daily|
      ensures Tells(a.daily[i].stats, q, cal, ivs, OfDate(cal, a.daily[i].date), DateKnown(q.schedule, a.daily[i].date))
    {
      DayTells(q, cal, ivs, a.daily[i].date, a.daily[i].stats);
    }
  }

  /** Neighbouring minutes share a reported hour exactly when they share the local date and hour. */
  lemma {:induction false} HoursAreLocalHours(q: Query, cal: Calendar, hourly: seq<HourReport>, m: int)
    requires q.from < q.to && HoursTile(q, cal, hourly) && Begins(q) <= m && m + 1 < Ends(q)
    ensures (exists h :: 0 <= h < |hourly| && Within(hourly[h].from, hourly[h].to)(m)
                         && Within(hourly[h].from, hourly[h].to)(m + 1))
        <==> cal.date(m) == cal.date(m + 1) && cal.hourKey(m) == cal.hourKey(m + 1)
  {
    hide HoursTile, HourIndex;
    var g := Hour(q, cal)(m);
    HourInReport(q, cal, hourly, m);
    HourMinutes(q, cal, hourly, g, m);
    HourMinutes(q, cal, hourly, g, m + 1);
    HourChanges(q, cal, m);
    forall h | 0 <= h < |hourly| && Within(hourly[h].from, hourly[h].to)(m)
      ensures h == g
    {
      HourMinutes(q, cal, hourly, h, m);
    }
    if Hour(q, cal)(m + 1) == g {
      assert Within(hourly[g].from, hourly[g].to)(m) && Within(hourly[g].from, hourly[g].to)(m + 1);
    }
  }

  lemma {:induction false} HourInReport(q: Query, cal: Calendar, hourly: seq<HourReport>, m: int)
    requires HoursTile(q, cal, hourly) && FirstMinute(q) <= m < EndMinute(q)
    ensures 0 <= Hour(q, cal)(m) < |hourly|
  {
    assert InHour(q, cal, hourly, m);
  }

  lemma {:induction false} HourChanges(q: Query, cal: Calendar, m: int)
    requires MinuteOf(q.from) <= m
    ensures Hour(q, cal)(m + 1) == Hour(q, cal)(m)
        <==> cal.date(m) == cal.date(m + 1) && cal.hourKey(m) == cal.hourKey(m + 1)
  {
  }

  // ---------- the intervals ----------

  // All readings at time t have this power and this series.
  ghost predicate Measured(observations: seq<Observation>, t: int, power: real, series: Option<string>) {
    && Timed(observations, t) && power >= 0.0
    && forall o :: o in observations && o.at == Some(t) ==> o.power == Some(power) && o.series == series
  }

  // Two consecutive reading times, both measured, of one series, close enough.
  ghost predicate IsInterval(observations: seq<Observation>, maxGapSeconds: real, i: Interval) {
    && i.start < i.end && (i.end - i.start) as real <= maxGapSeconds * 1000.0
    && (forall t :: i.start < t < i.end ==> !Timed(observations, t))
    && exists next, series ::
         Measured(observations, i.start, i.power, series) && Measured(observations, i.end, next, series)
  }

  lemma {:induction false} SampleMeasured(observations: seq<Observation>, x: Sample, p: real)
    requires x in SamplesOf(observations)
    ensures x.power == Some(p) <==> Measured(observations, x.at, p, x.series)
  {
    IntakeConsistent(observations);
    SamplesSorted(TakenIn(observations));
    IntakeIsFaithful(observations, x.at);
    var s := TakenIn(observations);
    if x.power == Some(p) {
      assert Agree(observations, x.at, Some(p), x.series);
    }
    if Measured(observations, x.at, p, x.series) {
      assert Agree(observations, x.at, Some(p), x.series);
    }
  }

  lemma {:induction false} SampleTimes(observations: seq<Observation>, t: int)
    ensures Timed(observations, t) <==> exists x :: x in SamplesOf(observations) && x.at == t
  {
    IntakeConsistent(observations);
    SamplesSorted(TakenIn(observations));
    IntakeIsFaithful(observations, t);
    var s := TakenIn(observations);
    if t in s.byTime {
      assert Sample(t, s.byTime[t], s.seriesByTime[t]) in SamplesOf(observations);
    }
  }

  // Neighbouring samples j - 1 and j give the interval.
  ghost predicate FromPair(samples: seq<Sample>, maxGapSeconds: real, i: Interval, j: int) {
    && 0 < j < |samples| && Brackets(samples[j - 1], samples[j], maxGapSeconds)
    && i == Interval(samples[j - 1].at, samples[j].at, samples[j - 1].power.value)
  }

  lemma {:induction false} BracketedPairs(samples: seq<Sample>, maxGapSeconds: real, i: Interval)
    ensures i in Bracketed(samples, maxGapSeconds) <==> exists j :: FromPair(samples, maxGapSeconds, i, j)
  {
    hide Brackets;
    var n := |samples|;
    if n >= 2 {
      var front := samples[..n - 1];
      BracketedPairs(front, maxGapSeconds, i);
      forall j
        ensures FromPair(samples, maxGapSeconds, i, j)
            <==> FromPair(front, maxGapSeconds, i, j) || (j == n - 1 && FromPair(samples, maxGapSeconds, i, j))
      {
      }
      assert i in Bracketed(samples, maxGapSeconds)
          <==> i in Bracketed(front, maxGapSeconds) || FromPair(samples, maxGapSeconds, i, n - 1);
    }
  }

  lemma {:induction false} PairIsInterval(observations: seq<Observation>, maxGapSeconds: real, i: Interval, j: int)
    requires FromPair(SamplesOf(observations), maxGapSeconds, i, j)
    ensures IsInterval(observations, maxGapSeconds, i)
  {
    hide SamplesOf, Measured, Timed;
    var samples := SamplesOf(observations);
    var a, b := samples[j - 1], samples[j];
    SamplesOfObservations(observations);
    assert a in samples && b in samples;
    var key := (x: Sample) => x.at;
    assert key(samples[j - 1]) < key(samples[j]);
    SampleMeasured(observations, a, i.power);
    SampleMeasured(observations, b, b.power.value);
    forall t | i.start < t < i.end
      ensures !Timed(observations, t)
    {
      NoneBetween(samples, j, t);
      SampleTimes(observations, t);
    }
  }

  lemma {:induction false} NoneBetween(samples: seq<Sample>, j: int, t: int)
    requires StableSort.StrictlySortedBy(samples, (x: Sample) => x.at) && 0 < j < |samples|
    requires samples[j - 1].at < t < samples[j].at
    ensures !exists x :: x in samples && x.at == t
  {
    var key := (x: Sample) => x.at;
    forall x | x in samples
      ensures x.at != t
    {
      var k :| 0 <= k < |samples| && samples[k] == x;
      assert k < j - 1 ==> key(samples[k]) < key(samples[j - 1]);
      assert k > j ==> key(samples[j]) < key(samples[k]);
    }
  }

  lemma {:induction false} IntervalIsPair(observations: seq<Observation>, maxGapSeconds: real, i: Interval)
    returns (j: int)
    requires IsInterval(observations, maxGapSeconds, i)
    ensures FromPair(SamplesOf(observations), maxGapSeconds, i, j)
  {
    hide SamplesOf;
    var samples := SamplesOf(observations);
    var next, series :|
      Measured(observations, i.start, i.power, series) && Measured(observations, i.end, next, series);
    SamplesOfObservations(observations);
    SampleTimes(observations, i.start);
    SampleTimes(observations, i.end);
    var k :| 0 <= k < |samples| && samples[k].at == i.start;
    j :| 0 <= j < |samples| && samples[j].at == i.end;
    SampleHolds(observations, samples[k], i.power, series);
    SampleHolds(observations, samples[j], next, series);
    Neighbours(observations, samples, k, j);
  }

  lemma {:induction false} SampleHolds(observations: seq<Observation>, x: Sample, p: real, series: Option<string>)
    requires x in SamplesOf(observations) && Measured(observations, x.at, p, series)
    ensures x.power == Some(p) && x.series == series
  {
    IntakeConsistent(observations);
    SamplesSorted(TakenIn(observations));
    IntakeIsFaithful(observations, x.at);
    assert Agree(observations, x.at, Some(p), series);
  }

  lemma {:induction false} Neighbours(observations: seq<Observation>, samples: seq<Sample>, k: nat, j: nat)
    requires samples == SamplesOf(observations) && k < |samples| && j < |samples| && samples[k].at < samples[j].at
    requires forall t :: samples[k].at < t < samples[j].at ==> !Timed(observations, t)
    ensures k == j - 1
  {
    hide SamplesOf, Timed;
    SamplesOfObservations(observations);
    SampleOrder(samples, j, k);
    if k + 1 < j {
      SampleOrder(samples, k + 1, j);
      SampleOrder(samples, k, k + 1);
      assert samples[k + 1] in samples;
      SampleTimes(observations, samples[k + 1].at);
    }
  }

  lemma {:induction false} SampleOrder(samples: seq<Sample>, j: nat, k: nat)
    requires StableSort.StrictlySortedBy(samples, (x: Sample) => x.at) && j < |samples| && k < |samples|
    ensures j < k ==> samples[j].at < samples[k].at
  {
    var key := (x: Sample) => x.at;
    assert j < k ==> key(samples[j]) < key(samples[k]);
  }

  /**
   The integrated intervals are exactly the pairs of neighbouring reading times at which all readings
   agree on a power that is not negative and on one series, at most the gap apart; the earlier power
   is held.
   */
  lemma {:induction false} IntervalsExactly(observations: seq<Observation>, maxGapSeconds: real, i: Interval)
    ensures i in IntervalsOf(observations, maxGapSeconds) <==> IsInterval(observations, maxGapSeconds, i)
  {
    hide SamplesOf, IsInterval, FromPair, Bracketed;
    BracketedPairs(SamplesOf(observations), maxGapSeconds, i);
    if i in IntervalsOf(observations, maxGapSeconds) {
      var j :| FromPair(SamplesOf(observations), maxGapSeconds, i, j);
      PairIsInterval(observations, maxGapSeconds, i, j);
    }
    if IsInterval(observations, maxGapSeconds, i) {
      var j := IntervalIsPair(observations, maxGapSeconds, i);
    }
  }

  // ---------- counts ----------

  // No timestamp, or no power that could be used.
  predicate Invalid(o: Observation) { o.at.None? || o.power.None? || o.power.value < 0.0 }

  function InvalidCount(observations: seq<Observation>): nat {
    if |observations| == 0 then 0
    else InvalidCount(observations[..|observations| - 1]) + if Invalid(observations[|observations| - 1]) then 1 else 0
  }

  function TimesRead(observations: seq<Observation>): set<int> {
    set o | o in observations && o.at.Some? :: o.at.value
  }

  lemma {:induction false} OrderIsTimes(observations: seq<Observation>)
    ensures |TakenIn(observations).order| == |TimesRead(observations)|
  {
    var order := TakenIn(observations).order;
    IntakeConsistent(observations);
    forall t
      ensures t in TimesRead(observations) <==> t in order
    {
      IntakeIsFaithful(observations, t);
      assert t in TimesRead(observations) <==> Timed(observations, t);
      assert t in order ==> t in TakenIn(observations).byTime;
    }
    DistinctSize(order);
    assert TimesRead(observations) == Elements(order);
  }

  function Elements(xs: seq<int>): set<int> { set x | x in xs }

  lemma {:induction false} DistinctSize(xs: seq<int>)
    requires Distinct(xs)
    ensures |Elements(xs)| == |xs|
  {
    if |xs| > 0 {
      var front, last := xs[..|xs| - 1], xs[|xs| - 1];
      DistinctSize(front);
      assert xs == front + [last];
      assert Elements(xs) == Elements(front) + {last};
    }
  }

  /** Invalid readings count one by one, and duplicates are the parsable readings beyond the first of their time. */
  lemma {:induction false} CountsTell(observations: seq<Observation>)
    ensures TakenIn(observations).invalid == InvalidCount(observations)
    ensures TakenIn(observations).duplicate == TimedCount(observations) - |TimesRead(observations)|
  {
    InvalidCounted(observations);
    DuplicatesCounted(observations);
    OrderIsTimes(observations);
  }

  lemma {:induction false} InvalidCounted(observations: seq<Observation>)
    ensures TakenIn(observations).invalid == InvalidCount(observations)
  {
    if |observations| > 0 {
      InvalidCounted(observations[..|observations| - 1]);
    }
  }
}
