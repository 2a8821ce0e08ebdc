/**
 The power history analysis: readings are deduplicated and sorted, hour and day buckets are
 laid out minute by minute, and each bracketed interval is walked in pieces that never cross
 a minute, adding every piece to its hour, its day and the total.
 */
module PowerHistory {
  import opened Wrappers
  import opened PowerIntegral
  import StableSort

  // An unparsable timestamp is None; a missing or non-finite power is None.
  datatype Observation = Observation(at: Option<int>, power: Option<real>, series: Option<string>)

  datatype Sample = Sample(at: int, power: Option<real>, series: Option<string>)

  // Minutes of the local day; effectiveFrom is a local date.
  datatype Schedule = Schedule(start: int, end: int, effectiveFrom: Option<int>)

  // The local calendar as functions of the minute index: date, hour with its zone offset, minute of the day.
  datatype Calendar = Calendar(date: int -> int, hourKey: int -> int, minuteOfDay: int -> int)

  datatype Query = Query(from: int, to: int, maxGapSeconds: real, threshold: real, schedule: Option<Schedule>)

  datatype Error = InvalidRange | InvalidSettings | ScheduleNotDistinct

  const MAX_RANGE_MS: int := 31 * 86400000

  function Validate(q: Query): Option<Error> {
    if q.to <= q.from || q.to - q.from > MAX_RANGE_MS then Some(InvalidRange)
    else if q.maxGapSeconds <= 0.0 || q.threshold < 0.0 then Some(InvalidSettings)
    else if q.schedule.Some? && q.schedule.value.start == q.schedule.value.end then Some(ScheduleNotDistinct)
    else None
  }

  predicate ScheduleKnown(schedule: Option<Schedule>, date: int) {
    schedule.Some? && (schedule.value.effectiveFrom.None? || date >= schedule.value.effectiveFrom.value)
  }

  // A schedule whose start is after its end wraps around midnight.
  predicate InsideSchedule(schedule: Option<Schedule>, minute: int) {
    var start := if schedule.Some? then schedule.value.start else 0;
    var end := if schedule.Some? then schedule.value.end else 0;
    if start < end then start <= minute < end else minute >= start || minute < end
  }

  function OutsideAt(schedule: Option<Schedule>, cal: Calendar): int -> bool {
    m => ScheduleKnown(schedule, cal.date(m)) && !InsideSchedule(schedule, cal.minuteOfDay(m))
  }

  function WindowOf(q: Query, cal: Calendar): Window {
    Window(q.from, q.to, q.threshold, OutsideAt(q.schedule, cal))
  }

  // ---------- intake ----------

  function CleanPower(o: Observation): Option<real> {
    if o.power.Some? && o.power.value >= 0.0 then o.power else None
  }

  // The two maps of the intake, the insertion order of their keys, and the three counts.
  datatype Intake = Intake(order: seq<int>, byTime: map<int, Option<real>>, seriesByTime: map<int, Option<string>>,
                           invalid: nat, duplicate: nat, conflicting: nat)

  ghost function TakeOne(s: Intake, o: Observation): Intake {
    if o.at.None? then s.(invalid := s.invalid + 1)
    else
      var at, power := o.at.value, CleanPower(o);
      var s1 := if power.None? then s.(invalid := s.invalid + 1) else s;
      if at in s.byTime then
        if s.byTime[at] != power || (at in s.seriesByTime && s.seriesByTime[at] != o.series) then
          s1.(duplicate := s1.duplicate + 1, conflicting := s1.conflicting + 1, byTime := s1.byTime[at := None])
        else s1.(duplicate := s1.duplicate + 1)
      else s1.(order := s1.order + [at], byTime := s1.byTime[at := power],
               seriesByTime := s1.seriesByTime[at := o.series])
  }

  ghost function TakenIn(observations: seq<Observation>): Intake {
    if |observations| == 0 then Intake([], map[], map[], 0, 0, 0)
    else TakeOne(TakenIn(observations[..|observations| - 1]), observations[|observations| - 1])
  }

  ghost predicate Consistent(s: Intake) {
    && s.byTime.Keys == s.seriesByTime.Keys
    && (forall i :: 0 <= i < |s.order| ==> s.order[i] in s.byTime)
    && (forall t :: t in s.byTime ==> t in s.order)
    && Distinct(s.order)
  }

  lemma {:induction false} IntakeConsistent(observations: seq<Observation>)
    ensures Consistent(TakenIn(observations))
  {
    hide Consistent, TakeOne;
    if |observations| == 0 {
      NothingTaken();
    } else {
      IntakeConsistent(observations[..|observations| - 1]);
      TakeOneConsistent(TakenIn(observations[..|observations| - 1]), observations[|observations| - 1]);
    }
  }

  lemma {:induction false} NothingTaken()
    ensures Consistent(TakenIn([]))
  {
  }

  lemma {:induction false} TakeOneConsistent(s: Intake, o: Observation)
    requires Consistent(s)
    ensures Consistent(TakeOne(s, o))
  {
    hide CleanPower, Consistent;
    if o.at.Some? && o.at.value in s.byTime {
      KnownTimeConsistent(s, TakeOne(s, o));
    } else if o.at.Some? {
      NewTimeConsistent(s, TakeOne(s, o), o.at.value);
    } else {
      KnownTimeConsistent(s, TakeOne(s, o));
    }
  }

  lemma {:induction false} KnownTimeConsistent(s: Intake, t: Intake)
    requires Consistent(s) && t.order == s.order && t.byTime.Keys == s.byTime.Keys && t.seriesByTime == s.seriesByTime
    ensures Consistent(t)
  {
    hide Distinct;
    assert forall at :: at in t.byTime <==> at in s.byTime;
  }

  lemma {:induction false} NewTimeConsistent(s: Intake, t: Intake, at: int)
    requires Consistent(s) && at !in s.byTime && t.order == s.order + [at]
    requires t.byTime.Keys == s.byTime.Keys + {at} && t.seriesByTime.Keys == s.seriesByTime.Keys + {at}
    ensures Consistent(t)
  {
    assert t.order[|s.order|] == at;
    assert forall i :: 0 <= i < |s.order| ==> t.order[i] == s.order[i];
    forall x | x in t.byTime
      ensures x in t.order
    {
      assert x in s.byTime || x == at;
    }
    forall i | 0 <= i < |t.order|
      ensures t.order[i] in t.byTime
    {
      assert t.order[i] in s.byTime.Keys + {at};
    }
  }

  method TakeIn(observations: seq<Observation>) returns (s: Intake)
    ensures s == TakenIn(observations)
    ensures Consistent(s)
  {
    var order, byTime, seriesByTime := [], map[], map[];
    var invalid, duplicate, conflicting := 0, 0, 0;
    for n := 0 to |observations|
      invariant Intake(order, byTime, seriesByTime, invalid, duplicate, conflicting) == TakenIn(observations[..n])
    {
      IntakeConsistent(observations[..n]);
      assert observations[..n + 1][..n] == observations[..n];
      var observation := observations[n];
      if observation.at.None? {
        invalid := invalid + 1;
        continue;
      }
      var at, power := observation.at.value, CleanPower(observation);
      if power.None? {
        invalid := invalid + 1;
      }
      if at in byTime {
        duplicate := duplicate + 1;
        if byTime[at] != power || seriesByTime[at] != observation.series {
          byTime := byTime[at := None];
          conflicting := conflicting + 1;
        }
      } else {
        order := order + [at];
        byTime := byTime[at := power];
        seriesByTime := seriesByTime[at := observation.series];
      }
    }
    assert observations[..|observations|] == observations;
    IntakeConsistent(observations);
    s := Intake(order, byTime, seriesByTime, invalid, duplicate, conflicting);
  }

  function Entries(order: seq<int>, byTime: map<int, Option<real>>, seriesByTime: map<int, Option<string>>)
    : (r: seq<Sample>)
    requires forall i :: 0 <= i < |order| ==> order[i] in byTime && order[i] in seriesByTime
    ensures |r| == |order|
    ensures forall i :: 0 <= i < |r| ==> r[i] == Sample(order[i], byTime[order[i]], seriesByTime[order[i]])
  {
    seq(|order|, i requires 0 <= i < |order| => Sample(order[i], byTime[order[i]], seriesByTime[order[i]]))
  }

  function Samples(s: Intake): seq<Sample>
    requires Consistent(s)
  {
    StableSort.Sort(Entries(s.order, s.byTime, s.seriesByTime), (x: Sample) => x.at)
  }

  // The samples are in strict time order and are exactly the entries of the intake.
  lemma {:induction false} SamplesSorted(s: Intake)
    requires Consistent(s)
    ensures StableSort.StrictlySortedBy(Samples(s), (x: Sample) => x.at)
    ensures forall x :: x in Samples(s) <==> x.at in s.byTime && x == Sample(x.at, s.byTime[x.at], s.seriesByTime[x.at])
  {
    var entries := Entries(s.order, s.byTime, s.seriesByTime);
    var key := (x: Sample) => x.at;
    forall x
      ensures x in Samples(s) <==> x.at in s.byTime && x == Sample(x.at, s.byTime[x.at], s.seriesByTime[x.at])
    {
      StableSort.SortMembers(entries, key, x);
      if x.at in s.byTime && x == Sample(x.at, s.byTime[x.at], s.seriesByTime[x.at]) {
        var i :| 0 <= i < |s.order| && s.order[i] == x.at;
        assert entries[i] == x;
      }
    }
    StableSort.SortIsStrict(entries, key);
  }

  // ---------- bracketing ----------

  // Two consecutive samples bracket an interval when both are usable, of one series and close enough.
  predicate Brackets(a: Sample, b: Sample, maxGapSeconds: real) {
    && a.series == b.series
    && a.power.Some? && b.power.Some?
    && !((b.at - a.at) as real > maxGapSeconds * 1000.0)
  }

  function Bracketed(samples: seq<Sample>, maxGapSeconds: real): seq<Interval> {
    if |samples| < 2 then []
    else
      var a, b := samples[|samples| - 2], samples[|samples| - 1];
      Bracketed(samples[..|samples| - 1], maxGapSeconds)
      + if Brackets(a, b, maxGapSeconds) then [Interval(a.at, b.at, a.power.value)] else []
  }

  lemma {:induction false} BracketedChained(samples: seq<Sample>, maxGapSeconds: real)
    requires StableSort.SortedBy(samples, (x: Sample) => x.at)
    ensures Chained(Bracketed(samples, maxGapSeconds))
    ensures forall i :: i in Bracketed(samples, maxGapSeconds) ==> |samples| > 0 && i.end <= samples[|samples| - 1].at
  {
    if |samples| >= 2 {
      var key := (x: Sample) => x.at;
      BracketedChained(samples[..|samples| - 1], maxGapSeconds);
      var a, b := samples[|samples| - 2], samples[|samples| - 1];
      assert key(a) <= key(b);
      var front := Bracketed(samples[..|samples| - 1], maxGapSeconds);
      assert forall k :: 0 <= k < |front| ==> front[k] in front;
    }
  }

  // ---------- buckets ----------

  datatype HourBucket = HourBucket(from: int, to: int, date: int, localMinute: int, acc: Acc)

  // hourByMinute holds positions in hours; dayOrder is the insertion order of the day map.
  datatype Buckets = Buckets(hours: seq<HourBucket>, hourByMinute: map<int, int>,
                             days: map<int, Acc>, dayOrder: seq<int>, total: Acc)

  predicate SameHour(cal: Calendar, m: int, m': int) {
    cal.date(m) == cal.date(m') && cal.hourKey(m) == cal.hourKey(m')
  }

  // How many times the hour changes between minute first and minute m.
  ghost function HourIndex(cal: Calendar, first: int, m: int): nat
    decreases m - first
  {
    if m <= first then 0 else HourIndex(cal, first, m - 1) + if SameHour(cal, m - 1, m) then 0 else 1
  }

  ghost function Hour(q: Query, cal: Calendar): int -> int { m => HourIndex(cal, MinuteOf(q.from), m) }

  function Begin(q: Query, m: int): int { Max(q.from, MINUTE_MS * m) }

  function End(q: Query, m: int): int { Min(q.to, MINUTE_MS * (m + 1)) }

  // The accumulators hold the given cells of minutes [first, next), each in its hour and in its day.
  ghost predicate HoursHold(hours: seq<HourBucket>, hour: int -> int, cell: int -> Acc, first: int, next: int) {
    forall h :: 0 <= h < |hours| ==> hours[h].acc == Sum(cell, Class(hour, h), first, next)
  }

  ghost predicate DaysHold(days: map<int, Acc>, date: int -> int, cell: int -> Acc, first: int, next: int) {
    forall d :: d in days ==> days[d] == Sum(cell, Class(date, d), first, next)
  }

  // Every minute of [first, next) has its hour bucket, whose range contains it, and its day.
  ghost predicate Placed(q: Query, cal: Calendar, hours: seq<HourBucket>, hourByMinute: map<int, int>,
                         days: map<int, Acc>, m: int) {
    && m in hourByMinute && hourByMinute[m] == Hour(q, cal)(m) < |hours|
    && hours[hourByMinute[m]].date == cal.date(m)
    && hours[hourByMinute[m]].from <= Begin(q, m) && End(q, m) <= hours[hourByMinute[m]].to
    && cal.date(m) in days
  }

  ghost predicate Contiguous(hours: seq<HourBucket>, from: int, to: int) {
    && (|hours| > 0 ==> hours[0].from == from && hours[|hours| - 1].to == to)
    && (forall h :: 0 <= h < |hours| - 1 ==> hours[h].to == hours[h + 1].from)
    && (forall h :: 0 <= h < |hours| ==> hours[h].from < hours[h].to)
  }

  // Each hour is labelled with the local time of its first minute.
  ghost predicate LabelledHours(cal: Calendar, hours: seq<HourBucket>) {
    forall h :: 0 <= h < |hours| ==> hours[h].localMinute == cal.minuteOfDay(MinuteOf(hours[h].from))
  }

  // The dates of minutes [first, next), each where it first appears.
  ghost function DatesOf(cal: Calendar, first: int, next: int): seq<int>
    decreases next - first
  {
    if next <= first then []
    else
      var front, d := DatesOf(cal, first, next - 1), cal.date(next - 1);
      if d in front then front else front + [d]
  }

  ghost predicate DayOrderOf(days: map<int, Acc>, dayOrder: seq<int>) {
    && Distinct(dayOrder)
    && (forall d :: d in dayOrder <==> d in days)
  }

  ghost function FirstMinute(q: Query): int { MinuteOf(q.from) }

  ghost function EndMinute(q: Query): int { MinuteOf(q.to - 1) + 1 }

  ghost predicate DateQueried(q: Query, cal: Calendar, d: int) {
    exists m :: FirstMinute(q) <= m < EndMinute(q) && cal.date(m) == d
  }

  // The layout of the buckets, whatever their accumulators hold.
  ghost predicate LaidOut(q: Query, cal: Calendar, b: Buckets) {
    && (forall m :: FirstMinute(q) <= m < EndMinute(q) ==> Placed(q, cal, b.hours, b.hourByMinute, b.days, m))
    && |b.hours| == Hour(q, cal)(EndMinute(q) - 1) + 1
    && Contiguous(b.hours, q.from, q.to) && LabelledHours(cal, b.hours)
    && DayOrderOf(b.days, b.dayOrder) && b.dayOrder == DatesOf(cal, FirstMinute(q), EndMinute(q))
    && (forall d :: d in b.days ==> DateQueried(q, cal, d))
  }

  // The buckets hold exactly the given cells.
  ghost predicate Holds(q: Query, cal: Calendar, b: Buckets, cell: int -> Acc) {
    && HoursHold(b.hours, Hour(q, cal), cell, FirstMinute(q), EndMinute(q))
    && DaysHold(b.days, cal.date, cell, FirstMinute(q), EndMinute(q))
    && b.total == Sum(cell, Always(), FirstMinute(q), EndMinute(q))
  }

  lemma {:induction false} HourIndexMonotone(cal: Calendar, first: int, m: int, m': int)
    requires m <= m'
    ensures HourIndex(cal, first, m) <= HourIndex(cal, first, m')
    decreases m' - m
  {
    if m < m' {
      HourIndexMonotone(cal, first, m, m' - 1);
    }
  }

  // The layout and the contents of the buckets once minutes [FirstMinute, m) are laid out.
  ghost predicate Started(q: Query, cal: Calendar, b: Buckets, m: int) {
    && FirstMinute(q) <= m <= EndMinute(q)
    && (forall j :: FirstMinute(q) <= j < m ==> Placed(q, cal, b.hours, b.hourByMinute, b.days, j))
    && |b.hours| == (if m == FirstMinute(q) then 0 else Hour(q, cal)(m - 1) + 1)
    && Contiguous(b.hours, q.from, Min(q.to, Begin(q, m))) && LabelledHours(cal, b.hours)
  }

  ghost predicate DaysStarted(q: Query, cal: Calendar, b: Buckets, m: int) {
    && DayOrderOf(b.days, b.dayOrder) && b.dayOrder == DatesOf(cal, FirstMinute(q), m)
    && (forall d :: d in b.days ==> exists j :: FirstMinute(q) <= j < m && cal.date(j) == d)
    && (forall j :: FirstMinute(q) <= j < m ==> cal.date(j) in b.days)
  }

  ghost predicate Expecting(q: Query, cal: Calendar, b: Buckets, m: int) {
    && HoursHold(b.hours, Hour(q, cal), Cells(WindowOf(q, cal), []), FirstMinute(q), m)
    && DaysHold(b.days, cal.date, Cells(WindowOf(q, cal), []), FirstMinute(q), m)
  }

  function AddSeconds(acc: Acc, seconds: real): Acc { acc.(expected := acc.expected + seconds) }

  // One turn of the loop that lays out the buckets.
  ghost function AddMinute(q: Query, cal: Calendar, b: Buckets, m: int): Buckets {
    var opens := |b.hours| == 0 || !SameHour(cal, m - 1, m);
    var hours := if opens then b.hours + [HourBucket(Begin(q, m), End(q, m), cal.date(m), cal.minuteOfDay(m), Zero())]
                 else b.hours;
    var last := |hours| - 1;
    var seconds := Seconds(End(q, m) - Begin(q, m));
    var day := if cal.date(m) in b.days then b.days[cal.date(m)] else Zero();
    Buckets(hours[last := hours[last].(to := End(q, m), acc := AddSeconds(hours[last].acc, seconds))],
            b.hourByMinute[m := last],
            b.days[cal.date(m) := AddSeconds(day, seconds)],
            if cal.date(m) in b.days then b.dayOrder else b.dayOrder + [cal.date(m)],
            b.total)
  }

  lemma {:induction false} AddMinutePlaces(q: Query, cal: Calendar, b: Buckets, m: int)
    requires q.from < q.to && Started(q, cal, b, m) && m < EndMinute(q)
    ensures Started(q, cal, AddMinute(q, cal, b, m), m + 1)
  {
    hide Sum, MinuteOf, OutsideAt;
    var b', first := AddMinute(q, cal, b, m), FirstMinute(q);
    NewMinutePlaced(q, cal, b, m);
    forall j | first <= j < m
      ensures Placed(q, cal, b'.hours, b'.hourByMinute, b'.days, j)
    {
      OldMinutePlaced(q, cal, b, m, j);
    }
    NewRangeContiguous(q, cal, b, m);
    NewHourLabelled(q, cal, b, m);
  }

  lemma {:induction false} NewHourLabelled(q: Query, cal: Calendar, b: Buckets, m: int)
    requires q.from < q.to && Started(q, cal, b, m) && m < EndMinute(q)
    ensures LabelledHours(cal, AddMinute(q, cal, b, m).hours)
  {
    hide Placed, HourIndex, Contiguous;
    BeginMinute(q, m);
  }

  lemma {:induction false} BeginMinute(q: Query, m: int)
    requires q.from < q.to && FirstMinute(q) <= m < EndMinute(q)
    ensures MinuteOf(Begin(q, m)) == m
  {
  }

  lemma {:induction false} NewRangeContiguous(q: Query, cal: Calendar, b: Buckets, m: int)
    requires q.from < q.to && Started(q, cal, b, m) && m < EndMinute(q)
    ensures Contiguous(AddMinute(q, cal, b, m).hours, q.from, Min(q.to, Begin(q, m + 1)))
  {
    hide Placed, HourIndex;
    MinuteAt(q, Min(q.to, Begin(q, m)), m);
  }

  lemma {:induction false} NewMinutePlaced(q: Query, cal: Calendar, b: Buckets, m: int)
    requires q.from < q.to && Started(q, cal, b, m) && m < EndMinute(q)
    ensures var b' := AddMinute(q, cal, b, m);
            Placed(q, cal, b'.hours, b'.hourByMinute, b'.days, m) && |b'.hours| == Hour(q, cal)(m) + 1
  {
    hide Sum, Contiguous, OutsideAt;
    if FirstMinute(q) < m {
      assert Placed(q, cal, b.hours, b.hourByMinute, b.days, m - 1);
    }
  }

  lemma {:induction false} OldMinutePlaced(q: Query, cal: Calendar, b: Buckets, m: int, j: int)
    requires q.from < q.to && Started(q, cal, b, m) && FirstMinute(q) <= j < m < EndMinute(q)
    ensures var b' := AddMinute(q, cal, b, m);
            Placed(q, cal, b'.hours, b'.hourByMinute, b'.days, j)
  {
    hide Sum, Contiguous, OutsideAt;
    assert Placed(q, cal, b.hours, b.hourByMinute, b.days, j);
    if FirstMinute(q) < m {
      assert Placed(q, cal, b.hours, b.hourByMinute, b.days, m - 1);
    }
  }

  lemma {:induction false} AddMinuteDays(q: Query, cal: Calendar, b: Buckets, m: int)
    requires DaysStarted(q, cal, b, m) && FirstMinute(q) <= m
    ensures DaysStarted(q, cal, AddMinute(q, cal, b, m), m + 1)
  {
  }

  lemma {:induction false} AddSecondsIsPlus(q: Query, cal: Calendar, acc: Acc, m: int)
    requires FirstMinute(q) <= m < EndMinute(q) && q.from < q.to
    ensures AddSeconds(acc, Seconds(End(q, m) - Begin(q, m))) == Plus(acc, Cells(WindowOf(q, cal), [])(m))
  {
  }

  // Minute m belongs to one hour and one day only; everyone else gains nothing.
  lemma {:induction false} SumNext(cell: int -> Acc, f: int -> int, c: int, first: int, m: int)
    requires first <= m
    ensures f(m) == c ==> Sum(cell, Class(f, c), first, m + 1) == Plus(Sum(cell, Class(f, c), first, m), cell(m))
    ensures f(m) != c ==> Sum(cell, Class(f, c), first, m + 1) == Sum(cell, Class(f, c), first, m)
  {
    PlusZero(Sum(cell, Class(f, c), first, m));
  }

  // No minute before m belongs to an hour that has not been opened.
  lemma {:induction false} UnopenedHour(q: Query, cal: Calendar, b: Buckets, m: int, cell: int -> Acc)
    requires Started(q, cal, b, m)
    ensures Sum(cell, Class(Hour(q, cal), |b.hours|), FirstMinute(q), m) == Zero()
  {
    forall j | FirstMinute(q) <= j < m
      ensures Hour(q, cal)(j) < |b.hours|
    {
      assert Placed(q, cal, b.hours, b.hourByMinute, b.days, j);
    }
    SumZero(cell, Class(Hour(q, cal), |b.hours|), FirstMinute(q), m);
  }

  // The accumulator of hour h before minute m is added.
  function HourAcc(b: Buckets, h: int): Acc {
    if 0 <= h < |b.hours| then b.hours[h].acc else Zero()
  }

  lemma {:induction false} AddMinuteShape(q: Query, cal: Calendar, b: Buckets, m: int)
    requires q.from < q.to && Started(q, cal, b, m) && m < EndMinute(q)
    ensures |AddMinute(q, cal, b, m).hours| == Hour(q, cal)(m) + 1
    ensures |b.hours| <= |AddMinute(q, cal, b, m).hours| <= |b.hours| + 1
    ensures forall h :: 0 <= h <= Hour(q, cal)(m) ==>
      AddMinute(q, cal, b, m).hours[h].acc
        == if h == Hour(q, cal)(m) then AddSeconds(HourAcc(b, h), Seconds(End(q, m) - Begin(q, m))) else HourAcc(b, h)
  {
  }

  lemma {:induction false} StartedAt(q: Query, cal: Calendar, b: Buckets, m: int)
    requires Started(q, cal, b, m)
    ensures FirstMinute(q) <= m
  {
  }

  lemma {:induction false} AddMinuteHours(q: Query, cal: Calendar, b: Buckets, m: int)
    requires q.from < q.to && Started(q, cal, b, m) && m < EndMinute(q) && Expecting(q, cal, b, m)
    ensures HoursHold(AddMinute(q, cal, b, m).hours, Hour(q, cal), Cells(WindowOf(q, cal), []), FirstMinute(q), m + 1)
  {
    hide Sum, Class, Cells, AddMinute, WindowOf, Plus, Started, EndMinute, FirstMinute, AddSeconds, Begin, End, Seconds,
      DaysHold, MinuteOf;
    var b', first, hour, cell := AddMinute(q, cal, b, m), FirstMinute(q), Hour(q, cal), Cells(WindowOf(q, cal), []);
    AddMinuteShape(q, cal, b, m);
    UnopenedHour(q, cal, b, m, cell);
    StartedAt(q, cal, b, m);
    forall h | 0 <= h < |b'.hours|
      ensures b'.hours[h].acc == Sum(cell, Class(hour, h), first, m + 1)
    {
      SumNext(cell, hour, h, first, m);
      AddSecondsIsPlus(q, cal, HourAcc(b, h), m);
    }
  }

  lemma {:induction false} AddMinuteDayAccs(q: Query, cal: Calendar, b: Buckets, m: int)
    requires q.from < q.to && FirstMinute(q) <= m < EndMinute(q)
    requires DaysStarted(q, cal, b, m) && Expecting(q, cal, b, m)
    ensures DaysHold(AddMinute(q, cal, b, m).days, cal.date, Cells(WindowOf(q, cal), []), FirstMinute(q), m + 1)
  {
    var b', first, cell := AddMinute(q, cal, b, m), FirstMinute(q), Cells(WindowOf(q, cal), []);
    forall d | d in b'.days
      ensures b'.days[d] == Sum(cell, Class(cal.date, d), first, m + 1)
    {
      SumNext(cell, cal.date, d, first, m);
      if d == cal.date(m) {
        AddSecondsIsPlus(q, cal, if d in b.days then b.days[d] else Zero(), m);
      }
      if d !in b.days {
        SumZero(cell, Class(cal.date, d), first, m);
      }
    }
  }

  lemma {:induction false} MinuteAt(q: Query, at: int, m: int)
    requires FirstMinute(q) <= m <= EndMinute(q)
    requires at == Min(q.to, Begin(q, m)) < q.to
    ensures MinuteOf(at) == m < EndMinute(q) && at == Begin(q, m)
    ensures Min(q.to, Begin(q, m + 1)) == End(q, m) == Min(q.to, (m + 1) * MINUTE_MS) > at
  {
  }

  ghost predicate Ready(q: Query, cal: Calendar, b: Buckets, m: int) {
    q.from < q.to && Started(q, cal, b, m) && DaysStarted(q, cal, b, m) && Expecting(q, cal, b, m)
  }

  lemma {:induction false} NothingReady(q: Query, cal: Calendar, total: Acc)
    requires q.from < q.to
    ensures Ready(q, cal, Buckets([], map[], map[], [], total), FirstMinute(q))
    ensures q.from == Min(q.to, Begin(q, FirstMinute(q))) && FirstMinute(q) <= EndMinute(q)
  {
  }

  lemma {:induction false} AddMinuteReady(q: Query, cal: Calendar, b: Buckets, m: int)
    requires Ready(q, cal, b, m) && m < EndMinute(q)
    ensures Ready(q, cal, AddMinute(q, cal, b, m), m + 1)
    ensures |b.hours| == 0 <==> m == FirstMinute(q)
  {
    AddMinutePlaces(q, cal, b, m);
    AddMinuteDays(q, cal, b, m);
    AddMinuteHours(q, cal, b, m);
    AddMinuteDayAccs(q, cal, b, m);
    hide AddMinute, DaysStarted, Expecting, Placed, Contiguous;
  }

  method BuildBuckets(q: Query, cal: Calendar) returns (r: Buckets)
    requires q.from < q.to
    ensures LaidOut(q, cal, r)
    ensures Holds(q, cal, r, Cells(WindowOf(q, cal), []))
  {
    hide Ready, LaidOut, Holds, EndMinute, FirstMinute, MinuteOf, Begin, Min, Max;
    var hours, hourByMinute, days, dayOrder := [], map[], map[], [];
    var total := Zero().(expected := Seconds(q.to - q.from));
    ghost var m, b := FirstMinute(q), Buckets(hours, hourByMinute, days, dayOrder, total);
    var at, previous := q.from, None;
    NothingReady(q, cal, total);
    while at < q.to
      invariant FirstMinute(q) <= m <= EndMinute(q) && at == Min(q.to, Begin(q, m))
      invariant previous == if m == FirstMinute(q) then None else Some((cal.date(m - 1), cal.hourKey(m - 1)))
      invariant b == Buckets(hours, hourByMinute, days, dayOrder, total)
      invariant Ready(q, cal, b, m)
      decreases q.to - at
    {
      MinuteAt(q, at, m);
      AddMinuteReady(q, cal, b, m);
      var minute := MinuteOf(at);
      var end := Min(q.to, (minute + 1) * MINUTE_MS);
      assert end == End(q, m) && at < end;
      var date, key := cal.date(minute), Some((cal.date(minute), cal.hourKey(minute)));
      var seconds := Seconds(end - at);
      if key != previous {
        hours := hours + [HourBucket(at, end, date, cal.minuteOfDay(minute), Zero())];
      }
      var last := |hours| - 1;
      hours := hours[last := hours[last].(to := end, acc := AddSeconds(hours[last].acc, seconds))];
      hourByMinute := hourByMinute[minute := last];
      previous := key;
      var day := if date in days then days[date] else Zero();
      if date !in days {
        dayOrder := dayOrder + [date];
      }
      days := days[date := AddSeconds(day, seconds)];
      assert Buckets(hours, hourByMinute, days, dayOrder, total) == AddMinute(q, cal, b, m);
      b, at, m := Buckets(hours, hourByMinute, days, dayOrder, total), end, m + 1;
    }
    LayoutDone(q, cal, b, m);
    r := Buckets(hours, hourByMinute, days, dayOrder, total);
  }

  lemma {:induction false} EmptyTotal(q: Query, cal: Calendar)
    requires q.from < q.to
    ensures Sum(Cells(WindowOf(q, cal), []), Always(), FirstMinute(q), EndMinute(q))
         == Zero().(expected := Seconds(q.to - q.from))
  {
    TotalIsDirect(WindowOf(q, cal), []);
    NothingOutside(WindowOf(q, cal), FirstMinute(q), EndMinute(q));
  }

  lemma {:induction false} AtTheEnd(q: Query, m: int)
    requires q.from < q.to && FirstMinute(q) <= m <= EndMinute(q) && q.to <= Min(q.to, Begin(q, m))
    ensures m == EndMinute(q) > FirstMinute(q) && Min(q.to, Begin(q, m)) == q.to
  {
  }

  lemma {:induction false} LaidOutAtTheEnd(q: Query, cal: Calendar, b: Buckets, m: int)
    requires Started(q, cal, b, m) && DaysStarted(q, cal, b, m)
    requires m == EndMinute(q) > FirstMinute(q) && Min(q.to, Begin(q, m)) == q.to
    ensures LaidOut(q, cal, b)
  {
    hide Placed, Begin, Min, EndMinute, FirstMinute, Contiguous, DayOrderOf, Hour;
  }

  lemma {:induction false} HoldsAtTheEnd(q: Query, cal: Calendar, b: Buckets)
    requires q.from < q.to && Expecting(q, cal, b, EndMinute(q))
    requires b.total == Zero().(expected := Seconds(q.to - q.from))
    ensures Holds(q, cal, b, Cells(WindowOf(q, cal), []))
  {
    EmptyTotal(q, cal);
    hide Sum, Cells, WindowOf, Zero, Seconds, EndMinute, FirstMinute, HoursHold, DaysHold;
  }

  lemma {:induction false} LayoutDone(q: Query, cal: Calendar, b: Buckets, m: int)
    requires Ready(q, cal, b, m) && FirstMinute(q) <= m <= EndMinute(q) && q.to <= Min(q.to, Begin(q, m))
    requires b.total == Zero().(expected := Seconds(q.to - q.from))
    ensures LaidOut(q, cal, b)
    ensures Holds(q, cal, b, Cells(WindowOf(q, cal), []))
  {
    AtTheEnd(q, m);
    LaidOutAtTheEnd(q, cal, b, m);
    HoldsAtTheEnd(q, cal, b);
  }

  lemma {:induction false} NothingOutside(w: Window, a: int, b: int)
    ensures Sum(Cells(w, []), Always(), a, b).outside == 0.0
    decreases b - a
  {
    if a < b {
      NothingOutside(w, a, b - 1);
    }
  }

  // ---------- the walk ----------

  // The five updates one piece makes to one accumulator.
  function Accrue(acc: Acc, threshold: real, power: real, seconds: real, outside: bool): Acc {
    var peak := if acc.peak.Some? then acc.peak.value else 0.0;
    Acc(acc.expected, acc.covered + seconds, acc.watt + power * seconds,
        acc.active + if power >= threshold then seconds else 0.0,
        if outside then acc.outside + power * seconds else acc.outside,
        Some(if peak < power then power else peak))
  }

  lemma {:induction false} AccrueIsPlus(w: Window, acc: Acc, power: real, ms: int, m: int)
    requires power >= 0.0
    ensures Accrue(acc, w.threshold, power, Seconds(ms), w.outsideAt(m)) == Plus(acc, Piece(w, power, ms, m))
  {
  }

  // One turn of the walk: a piece of ms milliseconds inside minute m.
  ghost function AddPiece(q: Query, cal: Calendar, b: Buckets, power: real, ms: int, m: int): Buckets
    requires Placed(q, cal, b.hours, b.hourByMinute, b.days, m)
  {
    var h, d, outside := b.hourByMinute[m], cal.date(m), WindowOf(q, cal).outsideAt(m);
    b.(hours := b.hours[h := b.hours[h].(acc := Accrue(b.hours[h].acc, q.threshold, power, Seconds(ms), outside))],
       days := b.days[d := Accrue(b.days[d], q.threshold, power, Seconds(ms), outside)],
       total := Accrue(b.total, q.threshold, power, Seconds(ms), outside))
  }

  lemma {:induction false} SumBump(cell: int -> Acc, cell': int -> Acc, sel: int -> bool, a: int, b: int, m: int,
      x: Acc)
    requires a <= m < b
    requires forall j :: a <= j < b ==> cell'(j) == if j == m then Plus(cell(j), x) else cell(j)
    ensures Sum(cell', sel, a, b) == if sel(m) then Plus(Sum(cell, sel, a, b), x) else Sum(cell, sel, a, b)
    decreases b - a
  {
    if b - 1 == m {
      SumAgree(cell, cell', sel, sel, a, m);
      PlusAssociative(Sum(cell, sel, a, m), cell(m), x);
    } else {
      SumBump(cell, cell', sel, a, b - 1, m, x);
      hide Plus;
      PlusSwap(Sum(cell, sel, a, b - 1), x, if sel(b - 1) then cell(b - 1) else Zero());
    }
  }

  lemma {:induction false} PlusSwap(x: Acc, y: Acc, z: Acc)
    ensures Plus(Plus(x, y), z) == Plus(Plus(x, z), y)
  {
  }

  // A piece changes accumulators only.
  ghost predicate SameShape(b: Buckets, b': Buckets) {
    && |b'.hours| == |b.hours|
    && (forall h :: 0 <= h < |b.hours| ==> b'.hours[h] == b.hours[h].(acc := b'.hours[h].acc))
    && b'.hourByMinute == b.hourByMinute && b'.days.Keys == b.days.Keys && b'.dayOrder == b.dayOrder
  }

  lemma {:induction false} AddPieceShape(q: Query, cal: Calendar, b: Buckets, power: real, ms: int, m: int)
    requires Placed(q, cal, b.hours, b.hourByMinute, b.days, m)
    ensures SameShape(b, AddPiece(q, cal, b, power, ms, m))
  {
    hide Accrue, HourIndex, OutsideAt;
  }

  lemma {:induction false} SameShapePlaced(q: Query, cal: Calendar, b: Buckets, b': Buckets, j: int)
    requires SameShape(b, b') && Placed(q, cal, b.hours, b.hourByMinute, b.days, j)
    ensures Placed(q, cal, b'.hours, b'.hourByMinute, b'.days, j)
  {
    hide HourIndex, Begin, End;
    assert cal.date(j) in b.days.Keys;
  }

  lemma {:induction false} SameShapeDays(q: Query, cal: Calendar, b: Buckets, b': Buckets)
    requires SameShape(b, b') && DayOrderOf(b.days, b.dayOrder)
    requires forall d :: d in b.days ==> DateQueried(q, cal, d)
    ensures DayOrderOf(b'.days, b'.dayOrder) && forall d :: d in b'.days ==> DateQueried(q, cal, d)
  {
    hide Distinct, DateQueried;
    assert forall d :: d in b'.days <==> d in b.days.Keys;
  }

  lemma {:induction false} AddPieceKeepsLayout(q: Query, cal: Calendar, b: Buckets, power: real, ms: int, m: int)
    requires LaidOut(q, cal, b) && FirstMinute(q) <= m < EndMinute(q)
    requires Placed(q, cal, b.hours, b.hourByMinute, b.days, m)
    ensures LaidOut(q, cal, AddPiece(q, cal, b, power, ms, m))
  {
    hide Contiguous, LabelledHours, Placed, AddPiece, DayOrderOf, Hour, FirstMinute, EndMinute, DatesOf;
    var b' := AddPiece(q, cal, b, power, ms, m);
    AddPieceShape(q, cal, b, power, ms, m);
    SameRanges(cal, b.hours, b'.hours, q.from, q.to);
    forall j | FirstMinute(q) <= j < EndMinute(q)
      ensures Placed(q, cal, b'.hours, b'.hourByMinute, b'.days, j)
    {
      SameShapePlaced(q, cal, b, b', j);
    }
    SameShapeDays(q, cal, b, b');
  }

  lemma {:induction false} SameRanges(cal: Calendar, hours: seq<HourBucket>, hours': seq<HourBucket>, from: int,
      to: int)
    requires |hours'| == |hours|
    requires forall h :: 0 <= h < |hours| ==> hours'[h] == hours[h].(acc := hours'[h].acc)
    ensures Contiguous(hours, from, to) ==> Contiguous(hours', from, to)
    ensures LabelledHours(cal, hours) ==> LabelledHours(cal, hours')
  {
  }

  // Cell m gains x and no other cell changes.
  ghost predicate Bumped(cell: int -> Acc, cell': int -> Acc, a: int, b: int, m: int, x: Acc) {
    forall j :: a <= j < b ==> cell'(j) == if j == m then Plus(cell(j), x) else cell(j)
  }

  lemma {:induction false} AddPieceHours(q: Query, cal: Calendar, b: Buckets, cell: int -> Acc, cell': int -> Acc,
      power: real, ms: int, m: int)
    requires Placed(q, cal, b.hours, b.hourByMinute, b.days, m)
    requires HoursHold(b.hours, Hour(q, cal), cell, FirstMinute(q), EndMinute(q))
    requires FirstMinute(q) <= m < EndMinute(q) && power >= 0.0
    requires Bumped(cell, cell', FirstMinute(q), EndMinute(q), m, Piece(WindowOf(q, cal), power, ms, m))
    ensures HoursHold(AddPiece(q, cal, b, power, ms, m).hours, Hour(q, cal), cell', FirstMinute(q), EndMinute(q))
  {
    hide Sum, Plus, Piece, Accrue, HourIndex, FirstMinute, EndMinute, OutsideAt;
    var b', w, x := AddPiece(q, cal, b, power, ms, m), WindowOf(q, cal), Piece(WindowOf(q, cal), power, ms, m);
    forall h | 0 <= h < |b'.hours|
      ensures b'.hours[h].acc == Sum(cell', Class(Hour(q, cal), h), FirstMinute(q), EndMinute(q))
    {
      SumBump(cell, cell', Class(Hour(q, cal), h), FirstMinute(q), EndMinute(q), m, x);
      AccrueIsPlus(w, b.hours[h].acc, power, ms, m);
    }
  }

  lemma {:induction false} AddPieceDays(q: Query, cal: Calendar, b: Buckets, cell: int -> Acc, cell': int -> Acc,
      power: real, ms: int, m: int)
    requires Placed(q, cal, b.hours, b.hourByMinute, b.days, m)
    requires DaysHold(b.days, cal.date, cell, FirstMinute(q), EndMinute(q))
    requires FirstMinute(q) <= m < EndMinute(q) && power >= 0.0
    requires Bumped(cell, cell', FirstMinute(q), EndMinute(q), m, Piece(WindowOf(q, cal), power, ms, m))
    ensures DaysHold(AddPiece(q, cal, b, power, ms, m).days, cal.date, cell', FirstMinute(q), EndMinute(q))
  {
    hide Sum, Plus, Piece, Accrue, HourIndex, FirstMinute, EndMinute, OutsideAt;
    var b', w, x := AddPiece(q, cal, b, power, ms, m), WindowOf(q, cal), Piece(WindowOf(q, cal), power, ms, m);
    forall d | d in b'.days
      ensures b'.days[d] == Sum(cell', Class(cal.date, d), FirstMinute(q), EndMinute(q))
    {
      SumBump(cell, cell', Class(cal.date, d), FirstMinute(q), EndMinute(q), m, x);
      AccrueIsPlus(w, b.days[d], power, ms, m);
    }
  }

  lemma {:induction false} AddPieceHolds(q: Query, cal: Calendar, b: Buckets, cell: int -> Acc, cell': int -> Acc,
      power: real, ms: int, m: int)
    requires LaidOut(q, cal, b) && Holds(q, cal, b, cell)
    requires FirstMinute(q) <= m < EndMinute(q) && power >= 0.0
    requires Bumped(cell, cell', FirstMinute(q), EndMinute(q), m, Piece(WindowOf(q, cal), power, ms, m))
    ensures Placed(q, cal, b.hours, b.hourByMinute, b.days, m)
    ensures Holds(q, cal, AddPiece(q, cal, b, power, ms, m), cell')
  {
    hide Sum, Plus, Piece, Accrue, Hour, FirstMinute, EndMinute, HoursHold, DaysHold, OutsideAt, Contiguous, DayOrderOf;
    assert Placed(q, cal, b.hours, b.hourByMinute, b.days, m);
    AddPieceHours(q, cal, b, cell, cell', power, ms, m);
    AddPieceDays(q, cal, b, cell, cell', power, ms, m);
    SumBump(cell, cell', Always(), FirstMinute(q), EndMinute(q), m, Piece(WindowOf(q, cal), power, ms, m));
    AccrueIsPlus(WindowOf(q, cal), b.total, power, ms, m);
  }

  // Interval i added to the cells of the minutes before done.
  ghost function Progress(w: Window, ivs: seq<Interval>, i: Interval, done: int): int -> Acc {
    j => if j < done then Plus(Cell(w, ivs, j), Contribution(w, i, j)) else Cell(w, ivs, j)
  }

  // The cursor after the minutes before m have been walked.
  ghost function CursorAt(w: Window, i: Interval, m: int): int {
    var lo, hi := Max(w.from, i.start), Min(w.to, i.end);
    Min(Max(lo, hi), Max(lo, MINUTE_MS * m))
  }

  lemma {:induction false} NoProgress(q: Query, cal: Calendar, b: Buckets, ivs: seq<Interval>, i: Interval)
    requires Holds(q, cal, b, Cells(WindowOf(q, cal), ivs))
    ensures Holds(q, cal, b, Progress(WindowOf(q, cal), ivs, i, MinuteOf(Max(q.from, i.start))))
  {
    var w := WindowOf(q, cal);
    CellsAgree(q, cal, b, Cells(w, ivs), Progress(w, ivs, i, MinuteOf(Max(q.from, i.start))));
  }

  lemma {:induction false} CellsAgree(q: Query, cal: Calendar, b: Buckets, cell: int -> Acc, cell': int -> Acc)
    requires Holds(q, cal, b, cell)
    requires forall j :: FirstMinute(q) <= j < EndMinute(q) ==> cell(j) == cell'(j)
    ensures Holds(q, cal, b, cell')
  {
    var first, last := FirstMinute(q), EndMinute(q);
    hide Sum, FirstMinute, EndMinute;
    forall sel
      ensures Sum(cell, sel, first, last) == Sum(cell', sel, first, last)
    {
      SumAgree(cell, cell', sel, sel, first, last);
    }
  }

  lemma {:induction false} AllProgress(q: Query, cal: Calendar, b: Buckets, ivs: seq<Interval>, i: Interval, m: int)
    requires Holds(q, cal, b, Progress(WindowOf(q, cal), ivs, i, m))
    requires CursorAt(WindowOf(q, cal), i, m) >= Min(q.to, i.end)
    ensures Holds(q, cal, b, Cells(WindowOf(q, cal), ivs + [i]))
  {
    var w := WindowOf(q, cal);
    assert (ivs + [i])[..|ivs|] == ivs;
    forall j
      ensures Progress(w, ivs, i, m)(j) == Cells(w, ivs + [i])(j)
    {
      if j >= m {
        assert Contribution(w, i, j) == Zero();
        PlusZero(Cell(w, ivs, j));
      }
    }
    CellsAgree(q, cal, b, Progress(w, ivs, i, m), Cells(w, ivs + [i]));
  }

  lemma {:induction false} CursorTurn(w: Window, i: Interval, m: int)
    requires CursorAt(w, i, m) < Min(w.to, i.end)
    requires MinuteOf(Max(w.from, i.start)) <= m
    ensures CursorAt(w, i, m) == Max(Max(w.from, i.start), MINUTE_MS * m)
    ensures CursorAt(w, i, m) < Min(Min(w.to, i.end), (m + 1) * MINUTE_MS) == CursorAt(w, i, m + 1)
  {
  }

  lemma {:induction false} CursorMinute(w: Window, i: Interval, m: int)
    requires CursorAt(w, i, m) == Max(Max(w.from, i.start), MINUTE_MS * m) < Min(w.to, i.end)
    requires MinuteOf(Max(w.from, i.start)) <= m
    ensures MinuteOf(w.from) <= m == MinuteOf(CursorAt(w, i, m)) <= MinuteOf(w.to - 1)
  {
    var c := CursorAt(w, i, m);
    MinuteMonotone(w.from, Max(w.from, i.start));
    assert MINUTE_MS * m <= c < MINUTE_MS * (m + 1);
    MinuteMonotone(c, w.to - 1);
  }

  lemma {:induction false} PieceOfTurn(w: Window, i: Interval, m: int)
    requires CursorAt(w, i, m) < Min(w.to, i.end)
    requires MinuteOf(Max(w.from, i.start)) <= m
    ensures Contribution(w, i, m) == Piece(w, i.power, CursorAt(w, i, m + 1) - CursorAt(w, i, m), m)
  {
    CursorTurn(w, i, m);
  }

  // What one turn of the walk reads: the minute of the cursor, its bucket and the end of the piece.
  lemma {:induction false} TurnBounds(q: Query, cal: Calendar, b: Buckets, i: Interval, cursor: int, m: int)
    requires LaidOut(q, cal, b) && q.from < q.to
    requires cursor == CursorAt(WindowOf(q, cal), i, m) < Min(q.to, i.end)
    requires MinuteOf(Max(q.from, i.start)) <= m
    ensures MinuteOf(cursor) == m && FirstMinute(q) <= m < EndMinute(q)
    ensures Placed(q, cal, b.hours, b.hourByMinute, b.days, m) && 0 <= b.hourByMinute[m]
    ensures var end := Min(q.to, i.end);
            var pieceEnd := Min(Min(end, b.hours[b.hourByMinute[m]].to), (m + 1) * MINUTE_MS);
            && cursor < pieceEnd <= end
            && pieceEnd == CursorAt(WindowOf(q, cal), i, m + 1)
  {
    CursorTurn(WindowOf(q, cal), i, m);
    CursorMinute(WindowOf(q, cal), i, m);
    assert Placed(q, cal, b.hours, b.hourByMinute, b.days, m);
    hide LaidOut, CursorAt, MinuteOf;
  }

  // One turn of the walk, from the cursor to the end of the piece.
  lemma {:induction false} WalkTurn(q: Query, cal: Calendar, b: Buckets, i: Interval, ivs: seq<Interval>, cursor: int,
      m: int)
    requires LaidOut(q, cal, b) && q.from < q.to && i.power >= 0.0
    requires cursor == CursorAt(WindowOf(q, cal), i, m) < Min(q.to, i.end)
    requires MinuteOf(Max(q.from, i.start)) <= m
    requires Holds(q, cal, b, Progress(WindowOf(q, cal), ivs, i, m))
    ensures MinuteOf(cursor) == m && Placed(q, cal, b.hours, b.hourByMinute, b.days, m)
    ensures m in b.hourByMinute && 0 <= b.hourByMinute[m] < |b.hours|
    ensures b.hours[b.hourByMinute[m]].date == cal.date(m) && cal.date(m) in b.days
    ensures var pieceEnd := Min(Min(Min(q.to, i.end), b.hours[b.hourByMinute[m]].to), (m + 1) * MINUTE_MS);
            && cursor < pieceEnd <= Min(q.to, i.end) && pieceEnd == CursorAt(WindowOf(q, cal), i, m + 1)
            && var b' := AddPiece(q, cal, b, i.power, pieceEnd - cursor, m);
            LaidOut(q, cal, b') && Holds(q, cal, b', Progress(WindowOf(q, cal), ivs, i, m + 1))
  {
    hide LaidOut, Holds, Progress, Bumped, CursorAt, Min, Max, MinuteOf, FirstMinute, EndMinute, Contribution, Piece,
      Hour, Begin, End, Cells, AddPiece;
    var w := WindowOf(q, cal);
    TurnBounds(q, cal, b, i, cursor, m);
    var ms := CursorAt(w, i, m + 1) - cursor;
    AddPieceKeepsLayout(q, cal, b, i.power, ms, m);
    PieceOfTurn(w, i, m);
    ProgressStep(w, ivs, i, ms, m, FirstMinute(q), EndMinute(q));
    AddPieceHolds(q, cal, b, Progress(w, ivs, i, m), Progress(w, ivs, i, m + 1), i.power, ms, m);
  }

  lemma {:induction false} PieceTaken(q: Query, cal: Calendar, b: Buckets, b': Buckets, power: real, ms: int, m: int,
      outside: bool)
    requires Placed(q, cal, b.hours, b.hourByMinute, b.days, m)
    requires outside == (ScheduleKnown(q.schedule, cal.date(m)) && !InsideSchedule(q.schedule, cal.minuteOfDay(m)))
    requires var h, d, seconds := b.hourByMinute[m], cal.date(m), Seconds(ms);
             var hour := b.hours[h].(acc := Accrue(b.hours[h].acc, q.threshold, power, seconds, outside));
             b' == b.(hours := b.hours[h := hour],
                      days := b.days[d := Accrue(b.days[d], q.threshold, power, seconds, outside)],
                      total := Accrue(b.total, q.threshold, power, seconds, outside))
    ensures b' == AddPiece(q, cal, b, power, ms, m)
  {
    hide Accrue, HourIndex, ScheduleKnown, InsideSchedule, Seconds, Begin, End;
  }

  method WalkInterval(q: Query, cal: Calendar, b: Buckets, i: Interval, ghost ivs: seq<Interval>) returns (r: Buckets)
    requires q.from < q.to && i.power >= 0.0
    requires LaidOut(q, cal, b) && Holds(q, cal, b, Cells(WindowOf(q, cal), ivs))
    ensures LaidOut(q, cal, r) && Holds(q, cal, r, Cells(WindowOf(q, cal), ivs + [i]))
  {
    hide LaidOut, Holds, Progress, CursorAt, Min, Max, MinuteOf, FirstMinute, EndMinute, Accrue, Seconds, Hour, Begin,
      End, Cells, Placed, ScheduleKnown, InsideSchedule, AddPiece, WindowOf;
    r := b;
    ghost var w, m := WindowOf(q, cal), MinuteOf(Max(q.from, i.start));
    var cursor, end := Max(q.from, i.start), Min(q.to, i.end);
    NoProgress(q, cal, b, ivs, i);
    CursorStart(q, cal, i);
    while cursor < end
      invariant cursor == CursorAt(w, i, m) && MinuteOf(Max(q.from, i.start)) <= m
      invariant LaidOut(q, cal, r) && Holds(q, cal, r, Progress(w, ivs, i, m))
      decreases end - cursor
    {
      WalkTurn(q, cal, r, i, ivs, cursor, m);
      ghost var before := r;
      var minute := MinuteOf(cursor);
      var h := r.hourByMinute[minute];
      var bucket := r.hours[h];
      var pieceEnd := Min(Min(end, bucket.to), (minute + 1) * MINUTE_MS);
      var seconds := Seconds(pieceEnd - cursor);
      var outside := ScheduleKnown(q.schedule, bucket.date) && !InsideSchedule(q.schedule, cal.minuteOfDay(minute));
      r := r.(hours := r.hours[h := bucket.(acc := Accrue(bucket.acc, q.threshold, i.power, seconds, outside))],
              days := r.days[bucket.date := Accrue(r.days[bucket.date], q.threshold, i.power, seconds, outside)],
              total := Accrue(r.total, q.threshold, i.power, seconds, outside));
      PieceTaken(q, cal, before, r, i.power, pieceEnd - cursor, m, outside);
      cursor, m := pieceEnd, m + 1;
    }
    AllProgress(q, cal, r, ivs, i, m);
  }

  lemma {:induction false} CursorStart(q: Query, cal: Calendar, i: Interval)
    ensures CursorAt(WindowOf(q, cal), i, MinuteOf(Max(q.from, i.start))) == Max(q.from, i.start)
  {
  }

  lemma {:induction false} ProgressStep(w: Window, ivs: seq<Interval>, i: Interval, ms: int, m: int, a: int, b: int)
    requires Contribution(w, i, m) == Piece(w, i.power, ms, m)
    ensures Bumped(Progress(w, ivs, i, m), Progress(w, ivs, i, m + 1), a, b, m, Piece(w, i.power, ms, m))
  {
  }

  // ---------- the analysis ----------

  ghost predicate Nonnegative(samples: seq<Sample>) {
    forall x :: x in samples && x.power.Some? ==> x.power.value >= 0.0
  }

  ghost predicate NonnegativePowers(byTime: map<int, Option<real>>) {
    forall t :: t in byTime ==> byTime[t].None? || byTime[t].value >= 0.0
  }

  lemma {:induction false} IntakeNonnegative(observations: seq<Observation>)
    ensures NonnegativePowers(TakenIn(observations).byTime)
  {
    if |observations| > 0 {
      IntakeNonnegative(observations[..|observations| - 1]);
    }
  }

  ghost function SamplesOf(observations: seq<Observation>): seq<Sample> {
    IntakeConsistent(observations);
    Samples(TakenIn(observations))
  }

  lemma {:induction false} SamplesOfObservations(observations: seq<Observation>)
    ensures StableSort.StrictlySortedBy(SamplesOf(observations), (x: Sample) => x.at)
    ensures Nonnegative(SamplesOf(observations))
  {
    IntakeConsistent(observations);
    IntakeNonnegative(observations);
    SamplesSorted(TakenIn(observations));
    var s := TakenIn(observations);
    forall x | x in SamplesOf(observations) && x.power.Some?
      ensures x.power.value >= 0.0
    {
      assert x.at in s.byTime && x.power == s.byTime[x.at];
      assert s.byTime[x.at].None? || s.byTime[x.at].value >= 0.0;
    }
  }

  // The intervals the analysis integrates.
  ghost function IntervalsOf(observations: seq<Observation>, maxGapSeconds: real): seq<Interval> {
    Bracketed(SamplesOf(observations), maxGapSeconds)
  }

  lemma {:induction false} IntervalsChained(observations: seq<Observation>, maxGapSeconds: real)
    ensures Chained(IntervalsOf(observations, maxGapSeconds))
  {
    SamplesOfObservations(observations);
    BracketedChained(SamplesOf(observations), maxGapSeconds);
  }

  lemma {:induction false} BracketedNext(samples: seq<Sample>, i: int, maxGapSeconds: real)
    requires 0 <= i < |samples| - 1
    ensures Bracketed(samples[..1], maxGapSeconds) == []
    ensures Brackets(samples[i], samples[i + 1], maxGapSeconds) ==>
              Bracketed(samples[..i + 2], maxGapSeconds)
              == Bracketed(samples[..i + 1], maxGapSeconds)
                 + [Interval(samples[i].at, samples[i + 1].at, samples[i].power.value)]
    ensures !Brackets(samples[i], samples[i + 1], maxGapSeconds) ==>
              Bracketed(samples[..i + 2], maxGapSeconds) == Bracketed(samples[..i + 1], maxGapSeconds)
  {
    assert samples[..i + 2][..i + 1] == samples[..i + 1];
  }

  method Accumulate(samples: seq<Sample>, q: Query, cal: Calendar) returns (b: Buckets)
    requires q.from < q.to && Nonnegative(samples)
    ensures LaidOut(q, cal, b)
    ensures Holds(q, cal, b, Cells(WindowOf(q, cal), Bracketed(samples, q.maxGapSeconds)))
  {
    hide LaidOut, Holds, Cells, WindowOf;
    b := BuildBuckets(q, cal);
    var i := 0;
    assert Bracketed(samples[..Min(1, |samples|)], q.maxGapSeconds) == [];
    while i + 1 < |samples|
      invariant 0 <= i && (|samples| > 0 ==> i < |samples|)
      invariant LaidOut(q, cal, b)
      invariant Holds(q, cal, b, Cells(WindowOf(q, cal), Bracketed(samples[..Min(i + 1, |samples|)], q.maxGapSeconds)))
    {
      ghost var ivs := Bracketed(samples[..i + 1], q.maxGapSeconds);
      BracketedNext(samples, i, q.maxGapSeconds);
      var sample, next := samples[i], samples[i + 1];
      assert sample in samples;
      i := i + 1;
      if sample.series != next.series {
        continue;
      }
      if sample.power.None? || next.power.None? || (next.at - sample.at) as real > q.maxGapSeconds * 1000.0 {
        continue;
      }
      b := WalkInterval(q, cal, b, Interval(sample.at, next.at, sample.power.value), ivs);
    }
    assert samples[..Min(i + 1, |samples|)] == samples;
  }

  datatype Stats = Stats(energyKwh: Option<real>, averagePowerW: Option<real>, peakPowerW: Option<real>,
                         activeMinutes: Option<real>, outsideScheduleKwh: Option<real>, coveragePct: real,
                         coveredSeconds: real, expectedSeconds: real)

  function StatsOf(a: Acc, scheduleKnown: bool): Stats {
    var known := a.covered > 0.0;
    Stats(if known then Some(a.watt / 3600000.0) else None,
          if known then Some(a.watt / a.covered) else None,
          a.peak,
          if known then Some(a.active / 60.0) else None,
          if known && scheduleKnown then Some(a.outside / 3600000.0) else None,
          if a.expected > 0.0 then 100.0 * a.covered / a.expected else 0.0,
          a.covered,
          a.expected)
  }

  datatype HourReport = HourReport(from: int, to: int, localDate: int, localMinute: int, stats: Stats)

  datatype DayReport = DayReport(date: int, stats: Stats)

  datatype Analysis = Analysis(summary: Stats, hourly: seq<HourReport>, daily: seq<DayReport>,
                               invalid: nat, duplicate: nat, conflicting: nat)

  predicate AllKnown(schedule: Option<Schedule>, dates: seq<int>) {
    forall i :: 0 <= i < |dates| ==> ScheduleKnown(schedule, dates[i])
  }

  function Report(q: Query, b: Buckets, s: Intake): Analysis
    requires forall i :: 0 <= i < |b.dayOrder| ==> b.dayOrder[i] in b.days
  {
    Analysis(StatsOf(b.total, AllKnown(q.schedule, b.dayOrder)),
             seq(|b.hours|, h requires 0 <= h < |b.hours| =>
               HourReport(b.hours[h].from, b.hours[h].to, b.hours[h].date, b.hours[h].localMinute,
                          StatsOf(b.hours[h].acc, ScheduleKnown(q.schedule, b.hours[h].date)))),
             seq(|b.dayOrder|, i requires 0 <= i < |b.dayOrder| =>
               DayReport(b.dayOrder[i], StatsOf(b.days[b.dayOrder[i]], ScheduleKnown(q.schedule, b.dayOrder[i])))),
             s.invalid, s.duplicate, s.conflicting)
  }

  // The accumulators that the definition, rather than the algorithm, gives each hour and each day.
  ghost function HourTotal(q: Query, cal: Calendar, ivs: seq<Interval>, h: int): Acc {
    Sum(Cells(WindowOf(q, cal), ivs), Class(Hour(q, cal), h), FirstMinute(q), EndMinute(q))
  }

  ghost function DayTotal(q: Query, cal: Calendar, ivs: seq<Interval>, d: int): Acc {
    Sum(Cells(WindowOf(q, cal), ivs), Class(cal.date, d), FirstMinute(q), EndMinute(q))
  }

  // The hours follow one another from the start to the end of the query, and the minutes of
  // hour h lie inside its range, on its local date.
  ghost predicate HoursTile(q: Query, cal: Calendar, hourly: seq<HourReport>) {
    && |hourly| == Hour(q, cal)(EndMinute(q) - 1) + 1
    && hourly[0].from == q.from && hourly[|hourly| - 1].to == q.to
    && (forall h :: 0 <= h < |hourly| - 1 ==> hourly[h].to == hourly[h + 1].from)
    && (forall h :: 0 <= h < |hourly| ==> hourly[h].from < hourly[h].to)
    && (forall h :: 0 <= h < |hourly| ==> hourly[h].localMinute == cal.minuteOfDay(MinuteOf(hourly[h].from)))
    && (forall m :: FirstMinute(q) <= m < EndMinute(q) ==> InHour(q, cal, hourly, m))
  }

  ghost predicate InHour(q: Query, cal: Calendar, hourly: seq<HourReport>, m: int) {
    var h := Hour(q, cal)(m);
    h < |hourly| && hourly[h].from <= Begin(q, m) && End(q, m) <= hourly[h].to && hourly[h].localDate == cal.date(m)
  }

  // What the analysis of a list of intervals has to say.
  ghost predicate Reports(q: Query, cal: Calendar, ivs: seq<Interval>, a: Analysis) {
    && a.summary == StatsOf(Total(WindowOf(q, cal), ivs), AllKnown(q.schedule, Dates(a.daily)))
    && HoursTile(q, cal, a.hourly)
    && HoursReported(q, cal, ivs, a.hourly)
    && DaysReported(q, cal, ivs, a.daily)
  }

  function Dates(daily: seq<DayReport>): (r: seq<int>)
    ensures |r| == |daily| && forall i :: 0 <= i < |daily| ==> r[i] == daily[i].date
  {
    seq(|daily|, i requires 0 <= i < |daily| => daily[i].date)
  }

  lemma {:induction false} DatesQueried(q: Query, cal: Calendar, b: Buckets, d: int)
    requires LaidOut(q, cal, b)
    ensures d in b.dayOrder <==> DateQueried(q, cal, d)
  {
    if DateQueried(q, cal, d) {
      var m :| FirstMinute(q) <= m < EndMinute(q) && cal.date(m) == d;
      assert Placed(q, cal, b.hours, b.hourByMinute, b.days, m);
    }
  }

  ghost predicate HoursReported(q: Query, cal: Calendar, ivs: seq<Interval>, hourly: seq<HourReport>) {
    forall h :: 0 <= h < |hourly| ==>
      hourly[h].stats == StatsOf(HourTotal(q, cal, ivs, h), ScheduleKnown(q.schedule, hourly[h].localDate))
  }

  ghost predicate DaysReported(q: Query, cal: Calendar, ivs: seq<Interval>, daily: seq<DayReport>) {
    && Distinct(Dates(daily)) && Dates(daily) == DatesOf(cal, FirstMinute(q), EndMinute(q))
    && (forall d :: d in Dates(daily) <==> DateQueried(q, cal, d))
    && (forall i :: 0 <= i < |daily| ==>
         daily[i].stats == StatsOf(DayTotal(q, cal, ivs, daily[i].date), ScheduleKnown(q.schedule, daily[i].date)))
  }

  lemma {:induction false} HoursAreReported(q: Query, cal: Calendar, b: Buckets, s: Intake, ivs: seq<Interval>)
    requires HoursHold(b.hours, Hour(q, cal), Cells(WindowOf(q, cal), ivs), FirstMinute(q), EndMinute(q))
    requires forall i :: 0 <= i < |b.dayOrder| ==> b.dayOrder[i] in b.days
    ensures HoursReported(q, cal, ivs, Report(q, b, s).hourly)
  {
    hide Sum, Cells, StatsOf, ScheduleKnown, Hour, EndMinute, FirstMinute;
  }

  lemma {:induction false} DaysAreReported(q: Query, cal: Calendar, b: Buckets, s: Intake, ivs: seq<Interval>)
    requires LaidOut(q, cal, b)
    requires DaysHold(b.days, cal.date, Cells(WindowOf(q, cal), ivs), FirstMinute(q), EndMinute(q))
    requires forall i :: 0 <= i < |b.dayOrder| ==> b.dayOrder[i] in b.days
    ensures DaysReported(q, cal, ivs, Report(q, b, s).daily)
  {
    hide Sum, Cells, StatsOf, ScheduleKnown, DateQueried, LaidOut, EndMinute, FirstMinute, HoursReported;
    assert Dates(Report(q, b, s).daily) == b.dayOrder;
    DaysListed(q, cal, b);
  }

  lemma {:induction false} DaysListed(q: Query, cal: Calendar, b: Buckets)
    requires LaidOut(q, cal, b)
    ensures b.dayOrder == DatesOf(cal, FirstMinute(q), EndMinute(q))
    ensures Distinct(b.dayOrder) && forall d :: d in b.dayOrder <==> DateQueried(q, cal, d)
  {
    hide DateQueried, EndMinute, FirstMinute, Placed, Contiguous, LabelledHours, HourIndex;
    forall d
      ensures d in b.dayOrder <==> DateQueried(q, cal, d)
    {
      DatesQueried(q, cal, b, d);
    }
  }

  lemma {:induction false} DaysPresent(b: Buckets)
    requires DayOrderOf(b.days, b.dayOrder)
    ensures forall i :: 0 <= i < |b.dayOrder| ==> b.dayOrder[i] in b.days
  {
    assert forall i :: 0 <= i < |b.dayOrder| ==> b.dayOrder[i] in b.dayOrder;
  }

  lemma {:induction false} HoursAreTiled(q: Query, cal: Calendar, b: Buckets, s: Intake)
    requires LaidOut(q, cal, b)
    requires forall i :: 0 <= i < |b.dayOrder| ==> b.dayOrder[i] in b.days
    ensures HoursTile(q, cal, Report(q, b, s).hourly)
  {
    var hourly := Report(q, b, s).hourly;
    forall m | FirstMinute(q) <= m < EndMinute(q)
      ensures InHour(q, cal, hourly, m)
    {
      assert Placed(q, cal, b.hours, b.hourByMinute, b.days, m);
      hide StatsOf, HourIndex, Begin, End;
    }
    hide StatsOf, HourIndex, Begin, End, InHour, Placed, FirstMinute, EndMinute;
  }

  lemma {:induction false} TotalIsReported(q: Query, cal: Calendar, b: Buckets, s: Intake, ivs: seq<Interval>)
    requires forall i :: 0 <= i < |b.dayOrder| ==> b.dayOrder[i] in b.days
    requires HoursTile(q, cal, Report(q, b, s).hourly)
    requires b.total == Sum(Cells(WindowOf(q, cal), ivs), Always(), FirstMinute(q), EndMinute(q))
    requires HoursReported(q, cal, ivs, Report(q, b, s).hourly)
    requires DaysReported(q, cal, ivs, Report(q, b, s).daily)
    ensures Reports(q, cal, ivs, Report(q, b, s))
  {
    hide Sum, StatsOf, AllKnown, HoursTile, HoursReported, DaysReported, Hour, Cells, OutsideAt, MinuteOf,
      ScheduleKnown, HourIndex;
    assert Dates(Report(q, b, s).daily) == b.dayOrder;
  }

  lemma {:induction false} ReportIsRight(q: Query, cal: Calendar, b: Buckets, s: Intake, ivs: seq<Interval>)
    requires LaidOut(q, cal, b) && Holds(q, cal, b, Cells(WindowOf(q, cal), ivs))
    ensures forall i :: 0 <= i < |b.dayOrder| ==> b.dayOrder[i] in b.days
    ensures Reports(q, cal, ivs, Report(q, b, s))
  {
    DaysPresent(b);
    HoursAreReported(q, cal, b, s, ivs);
    DaysAreReported(q, cal, b, s, ivs);
    HoursAreTiled(q, cal, b, s);
    TotalIsReported(q, cal, b, s, ivs);
  }

  ghost predicate CountsOf(a: Analysis, s: Intake) {
    a.invalid == s.invalid && a.duplicate == s.duplicate && a.conflicting == s.conflicting
  }

  /** The whole analysis: refused settings, or the report of the intervals that the readings bracket. */
  method AnalyzePowerHistory(observations: seq<Observation>, q: Query, cal: Calendar)
    returns (r: Result<Analysis, Error>)
    ensures r == Failure(InvalidRange) <==> q.to <= q.from || q.to - q.from > 2678400000
    ensures r == Failure(InvalidSettings)
        <==> q.from < q.to <= q.from + 2678400000 && (q.maxGapSeconds <= 0.0 || q.threshold < 0.0)
    ensures r == Failure(ScheduleNotDistinct)
        <==> && q.from < q.to <= q.from + 2678400000 && q.maxGapSeconds > 0.0 && q.threshold >= 0.0
             && q.schedule.Some? && q.schedule.value.start == q.schedule.value.end
    ensures r.Success? ==> Reports(q, cal, IntervalsOf(observations, q.maxGapSeconds), r.value)
    ensures r.Success? ==> CountsOf(r.value, TakenIn(observations))
  {
    hide Reports, Holds, LaidOut, Consistent, TakenIn, WindowOf, Cells, Bracketed;
    var error := Validate(q);
    if error.Some? {
      return Failure(error.value);
    }
    var intake := TakeIn(observations);
    var samples := Samples(intake);
    SamplesOfObservations(observations);
    assert samples == SamplesOf(observations);
    var b := Accumulate(samples, q, cal);
    ReportIsRight(q, cal, b, intake, IntervalsOf(observations, q.maxGapSeconds));
    r := Success(Report(q, b, intake));
  }
}