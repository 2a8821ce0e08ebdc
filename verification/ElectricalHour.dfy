/**
 The hourly summary of one stream of electrical readings, and its agreement with the power
 history: two modules that integrate the same readings in two different ways.
 */
module ElectricalHour {
  import opened Wrappers
  import opened PowerIntegral
  import StableSort
  import PowerHistory
  import PowerHistoryLaws

  datatype Metric = Power | EnergyImportTotal | EnergyExportTotal

  datatype Stream = Stream(tenantId: string, siteId: string, deviceId: string, channel: string, metric: Metric)

  datatype Reading = Reading(stream: Stream, value: Option<real>, measured: bool, observedAt: int)

  datatype Hour = Hour(counterResets: nat, importKwh: Option<real>, exportKwh: Option<real>, coveredSeconds: real)

  datatype Error = NotAnHour | MixedStreams

  const HOUR_MS: int := 3600000
  const MAX_GAP_MS: int := 300000

  predicate Usable(r: Reading) { r.measured && r.value.Some? }

  function Time(): Reading -> int { (r: Reading) => r.observedAt }

  // Two consecutive readings are integrated when both are usable power readings at most five minutes apart.
  predicate Integrated(a: Reading, b: Reading) {
    Usable(a) && Usable(b) && a.stream.metric.Power? && 0 < b.observedAt - a.observedAt <= MAX_GAP_MS
  }

  ghost function Stretches(sorted: seq<Reading>): seq<Interval> {
    if |sorted| < 2 then []
    else
      var a, b := sorted[|sorted| - 2], sorted[|sorted| - 1];
      Stretches(sorted[..|sorted| - 1])
      + if Integrated(a, b) then [Interval(a.observedAt, b.observedAt, a.value.value)] else []
  }

  // A cumulative counter that went down inside [from, to).
  ghost predicate ResetBetween(a: Reading, b: Reading, from: int, to: int) {
    Usable(a) && Usable(b) && !a.stream.metric.Power? && from <= b.observedAt < to && b.value.value < a.value.value
  }

  ghost function Resets(sorted: seq<Reading>, from: int, to: int): nat {
    if |sorted| < 2 then 0
    else Resets(sorted[..|sorted| - 1], from, to)
         + if ResetBetween(sorted[|sorted| - 2], sorted[|sorted| - 1], from, to) then 1 else 0
  }

  function Positive(x: real): real { if x < 0.0 then 0.0 else x }

  function WattSeconds(power: real, ms: int): real { power * Seconds(ms) }

  // Seconds, imported and exported watt seconds of the intervals clipped to [lo, hi).
  ghost function Covered(ivs: seq<Interval>, lo: int, hi: int): real {
    if |ivs| == 0 then 0.0 else Covered(ivs[..|ivs| - 1], lo, hi) + Seconds(Clip(ivs[|ivs| - 1], lo, hi))
  }

  ghost function Imported(ivs: seq<Interval>, lo: int, hi: int): real {
    if |ivs| == 0 then 0.0
    else Imported(ivs[..|ivs| - 1], lo, hi) + WattSeconds(Positive(ivs[|ivs| - 1].power), Clip(ivs[|ivs| - 1], lo, hi))
  }

  ghost function Exported(ivs: seq<Interval>, lo: int, hi: int): real {
    if |ivs| == 0 then 0.0
    else Exported(ivs[..|ivs| - 1], lo, hi) + WattSeconds(Positive(-ivs[|ivs| - 1].power), Clip(ivs[|ivs| - 1], lo, hi))
  }

  ghost predicate Summarises(sorted: seq<Reading>, from: int, h: Hour) {
    var ivs, to := Stretches(sorted), from + HOUR_MS;
    && h.counterResets == Resets(sorted, from, to)
    && h.coveredSeconds == Covered(ivs, from, to)
    && h.importKwh == (if Covered(ivs, from, to) > 0.0 then Some(Imported(ivs, from, to) / 3600000.0) else None)
    && h.exportKwh == (if Covered(ivs, from, to) > 0.0 then Some(Exported(ivs, from, to) / 3600000.0) else None)
  }

  predicate OneStream(readings: seq<Reading>) {
    forall i :: 0 <= i < |readings| ==> readings[i].stream == readings[0].stream
  }

  lemma {:induction false} NextPair(sorted: seq<Reading>, i: int, from: int, to: int)
    requires 1 <= i < |sorted|
    ensures Resets(sorted[..i + 1], from, to)
         == Resets(sorted[..i], from, to) + if ResetBetween(sorted[i - 1], sorted[i], from, to) then 1 else 0
    ensures Integrated(sorted[i - 1], sorted[i]) ==>
              Stretches(sorted[..i + 1])
              == Stretches(sorted[..i])
                 + [Interval(sorted[i - 1].observedAt, sorted[i].observedAt, sorted[i - 1].value.value)]
    ensures !Integrated(sorted[i - 1], sorted[i]) ==> Stretches(sorted[..i + 1]) == Stretches(sorted[..i])
  {
    assert sorted[..i + 1][..i] == sorted[..i];
  }

  lemma {:induction false} NextStretch(ivs: seq<Interval>, i: Interval, lo: int, hi: int)
    ensures Covered(ivs + [i], lo, hi) == Covered(ivs, lo, hi) + Seconds(Clip(i, lo, hi))
    ensures Imported(ivs + [i], lo, hi) == Imported(ivs, lo, hi) + WattSeconds(Positive(i.power), Clip(i, lo, hi))
    ensures Exported(ivs + [i], lo, hi) == Exported(ivs, lo, hi) + WattSeconds(Positive(-i.power), Clip(i, lo, hi))
  {
    assert (ivs + [i])[..|ivs|] == ivs;
  }

  // The four sums of the loop, over a prefix of the sorted readings.
  ghost predicate Summed(sorted: seq<Reading>, from: int, to: int, resets: int, covered: real, imported: real,
      exported: real) {
    && resets == Resets(sorted, from, to)
    && covered == Covered(Stretches(sorted), from, to)
    && imported == Imported(Stretches(sorted), from, to)
    && exported == Exported(Stretches(sorted), from, to)
  }

  lemma {:induction false} SummedNext(sorted: seq<Reading>, i: int, from: int, to: int, resets: int, covered: real,
      imported: real, exported: real)
    requires 1 <= i < |sorted|
    requires Summed(sorted[..i], from, to, resets, covered, imported, exported)
    ensures var a, b := sorted[i - 1], sorted[i];
            var resets' := resets + if ResetBetween(a, b, from, to) then 1 else 0;
            var ms := Max(0, Min(to, b.observedAt) - Max(from, a.observedAt));
            && (Integrated(a, b) ==>
                 Summed(sorted[..i + 1], from, to, resets', covered + Seconds(ms),
                        imported + WattSeconds(Positive(a.value.value), ms),
                        exported + WattSeconds(Positive(-a.value.value), ms)))
            && (!Integrated(a, b) ==> Summed(sorted[..i + 1], from, to, resets', covered, imported, exported))
  {
    hide Resets, Stretches, Covered, Imported, Exported, ResetBetween, Positive, WattSeconds, Seconds;
    var a, b := sorted[i - 1], sorted[i];
    NextPair(sorted, i, from, to);
    if Integrated(a, b) {
      NextStretch(Stretches(sorted[..i]), Interval(a.observedAt, b.observedAt, a.value.value), from, to);
    }
  }

  lemma {:induction false} NothingSummed(sorted: seq<Reading>, from: int, to: int)
    requires |sorted| < 2
    ensures Summed(sorted, from, to, 0, 0.0, 0.0, 0.0)
  {
  }

  lemma {:induction false} SummedIsSummary(sorted: seq<Reading>, from: int, resets: nat, covered: real,
      imported: real, exported: real)
    requires Summed(sorted, from, from + HOUR_MS, resets, covered, imported, exported)
    ensures Summarises(sorted, from, Hour(resets, if covered > 0.0 then Some(imported / 3600000.0) else None,
                                          if covered > 0.0 then Some(exported / 3600000.0) else None, covered))
  {
  }

  method SummarizeElectricalHour(readings: seq<Reading>, hour: int) returns (r: Result<Hour, Error>)
    ensures r.Failure? && r.error.NotAnHour? <==> hour % HOUR_MS != 0
    ensures r.Failure? && r.error.MixedStreams?
            <==> hour % HOUR_MS == 0 && !OneStream(StableSort.Sort(readings, Time()))
    ensures r.Success? ==> Summarises(StableSort.Sort(readings, Time()), hour, r.value)
  {
    hide Summed, StableSort.Sort, Summarises, OneStream, Positive, WattSeconds, Seconds, Resets, Stretches;
    var from, to := hour, hour + HOUR_MS;
    if from % HOUR_MS != 0 {
      return Failure(NotAnHour);
    }
    var sorted := StableSort.Sort(readings, Time());
    if !OneStream(sorted) {
      return Failure(MixedStreams);
    }
    var resets, covered, imported, exported := 0, 0.0, 0.0, 0.0;
    NothingSummed(sorted[..Min(1, |sorted|)], from, to);
    var i := 1;
    while i < |sorted|
      invariant 1 <= i && (i <= |sorted| || |sorted| == 0) && resets >= 0
      invariant Summed(sorted[..Min(i, |sorted|)], from, to, resets, covered, imported, exported)
    {
      var a, b := sorted[i - 1], sorted[i];
      SummedNext(sorted, i, from, to, resets, covered, imported, exported);
      i := i + 1;
      if a.value.None? || b.value.None? || !a.measured || !b.measured {
        continue;
      }
      var start, end := a.observedAt, b.observedAt;
      if !a.stream.metric.Power? {
        if end >= from && end < to && b.value.value < a.value.value {
          resets := resets + 1;
        }
        continue;
      }
      if end <= start || end - start > MAX_GAP_MS {
        continue;
      }
      var ms := Max(0, Min(to, end) - Max(from, start));
      covered := covered + Seconds(ms);
      imported := imported + WattSeconds(Positive(a.value.value), ms);
      exported := exported + WattSeconds(Positive(-a.value.value), ms);
    }
    assert sorted[..Min(i, |sorted|)] == sorted;
    SummedIsSummary(sorted, from, resets, covered, imported, exported);
    r := Success(Hour(resets,
                      if covered > 0.0 then Some(imported / 3600000.0) else None,
                      if covered > 0.0 then Some(exported / 3600000.0) else None,
                      covered));
  }

  // ---------- pair by pair ----------

  // Seconds between two neighbouring readings that count towards the hour: both measured power
  // readings, at different times, at most five minutes apart.
  function PairSeconds(a: Reading, b: Reading, hour: int): real {
    var lo := if a.observedAt < hour then hour else a.observedAt;
    var hi := if hour + 3600000 < b.observedAt then hour + 3600000 else b.observedAt;
    if a.measured && b.measured && a.value.Some? && b.value.Some? && a.stream.metric == Metric.Power
       && a.observedAt < b.observedAt <= a.observedAt + 300000 && lo < hi
    then (hi - lo) as real / 1000.0 else 0.0
  }

  // Weight of the earlier reading's power times those seconds.
  function PairTerm(a: Reading, b: Reading, weight: real -> real, hour: int): real {
    if a.value.Some? then weight(a.value.value) * PairSeconds(a, b, hour) else 0.0
  }

  // The terms of all neighbours.
  function PairSum(sorted: seq<Reading>, weight: real -> real, hour: int): real {
    if |sorted| < 2 then 0.0
    else
      var a, b := sorted[|sorted| - 2], sorted[|sorted| - 1];
      PairSum(sorted[..|sorted| - 1], weight, hour) + PairTerm(a, b, weight, hour)
  }

  function EachSecond(): real -> real { power => 1.0 }

  function Inflow(): real -> real { power => if power > 0.0 then power else 0.0 }

  function Outflow(): real -> real { power => if power < 0.0 then -power else 0.0 }

  // Reading i of a counter is lower than the one before it, inside the hour.
  predicate DropsAt(sorted: seq<Reading>, i: int, hour: int) {
    && 0 < i < |sorted| && sorted[i - 1].measured && sorted[i].measured
    && sorted[i - 1].value.Some? && sorted[i].value.Some? && sorted[i - 1].stream.metric != Metric.Power
    && hour <= sorted[i].observedAt < hour + 3600000
    && sorted[i].value.value < sorted[i - 1].value.value
  }

  function Drops(sorted: seq<Reading>, hour: int): set<int> {
    set i | 0 <= i < |sorted| && DropsAt(sorted, i, hour)
  }

  lemma {:induction false} ResetsAreDrops(sorted: seq<Reading>, hour: int)
    ensures Resets(sorted, hour, hour + HOUR_MS) == |Drops(sorted, hour)|
  {
    var n := |sorted|;
    if n < 2 {
      assert Drops(sorted, hour) == {};
    } else {
      var front := sorted[..n - 1];
      ResetsAreDrops(front, hour);
      forall i | 0 <= i < n - 1
        ensures DropsAt(sorted, i, hour) == DropsAt(front, i, hour)
      {
      }
      assert Drops(sorted, hour) == Drops(front, hour) + if DropsAt(sorted, n - 1, hour) then {n - 1} else {};
    }
  }

  lemma {:induction false} StretchOfPair(a: Reading, b: Reading, hour: int)
    ensures Integrated(a, b) ==>
              Seconds(Clip(Interval(a.observedAt, b.observedAt, a.value.value), hour, hour + HOUR_MS))
              == PairSeconds(a, b, hour)
    ensures !Integrated(a, b) ==> PairSeconds(a, b, hour) == 0.0
  {
  }

  lemma {:induction false} StretchesArePairs(sorted: seq<Reading>, hour: int)
    ensures var ivs := Stretches(sorted);
            && Covered(ivs, hour, hour + HOUR_MS) == PairSum(sorted, EachSecond(), hour)
            && Imported(ivs, hour, hour + HOUR_MS) == PairSum(sorted, Inflow(), hour)
            && Exported(ivs, hour, hour + HOUR_MS) == PairSum(sorted, Outflow(), hour)
  {
    hide Clip, Seconds, PairSeconds, PairTerm, WattSeconds, Positive, Integrated, EachSecond, Inflow, Outflow;
    if |sorted| >= 2 {
      var front, a, b := sorted[..|sorted| - 1], sorted[|sorted| - 2], sorted[|sorted| - 1];
      StretchesArePairs(front, hour);
      PairTerms(a, b, hour);
      IntegratedHasValue(a, b);
      assert Stretches(front) + [] == Stretches(front);
      if Integrated(a, b) {
        NextStretch(Stretches(front), Interval(a.observedAt, b.observedAt, a.value.value), hour, hour + HOUR_MS);
      }
    }
  }

  // What a pair adds to each sum.
  lemma {:induction false} PairTerms(a: Reading, b: Reading, hour: int)
    ensures Integrated(a, b) ==>
              var ms := Clip(Interval(a.observedAt, b.observedAt, a.value.value), hour, hour + HOUR_MS);
              && Seconds(ms) == PairTerm(a, b, EachSecond(), hour)
              && WattSeconds(Positive(a.value.value), ms) == PairTerm(a, b, Inflow(), hour)
              && WattSeconds(Positive(-a.value.value), ms) == PairTerm(a, b, Outflow(), hour)
    ensures !Integrated(a, b) ==>
              PairTerm(a, b, EachSecond(), hour) == PairTerm(a, b, Inflow(), hour) == PairTerm(a, b, Outflow(), hour)
                == 0.0
  {
    hide Clip, Seconds, PairSeconds;
    StretchOfPair(a, b, hour);
  }

  lemma {:induction false} IntegratedHasValue(a: Reading, b: Reading)
    ensures Integrated(a, b) ==> a.value.Some?
  {
  }

  /**
   Every figure of an hour, pair by pair of its sorted readings: the covered seconds, the energy drawn
   and fed back, both unknown without coverage, and how often a counter dropped.
   */
  lemma {:induction false} HourTells(readings: seq<Reading>, hour: int, h: Hour)
    requires Summarises(StableSort.Sort(readings, Time()), hour, h)
    ensures var sorted := StableSort.Sort(readings, Time());
            var covered := PairSum(sorted, EachSecond(), hour);
            && h.coveredSeconds == covered && h.counterResets == |Drops(sorted, hour)|
            && h.importKwh == (if covered > 0.0 then Some(PairSum(sorted, Inflow(), hour) / 3600000.0) else None)
            && h.exportKwh == (if covered > 0.0 then Some(PairSum(sorted, Outflow(), hour) / 3600000.0) else None)
  {
    hide Stretches, Covered, Imported, Exported, PairSum, Resets, Drops, StableSort.Sort;
    var sorted := StableSort.Sort(readings, Time());
    StretchesArePairs(sorted, hour);
    ResetsAreDrops(sorted, hour);
  }

  // ---------- signed power ----------

  ghost function SignedWattSeconds(ivs: seq<Interval>, lo: int, hi: int): real {
    if |ivs| == 0 then 0.0
    else SignedWattSeconds(ivs[..|ivs| - 1], lo, hi) + ivs[|ivs| - 1].power * Seconds(Clip(ivs[|ivs| - 1], lo, hi))
  }

  lemma {:induction false} ImportMinusExport(ivs: seq<Interval>, lo: int, hi: int)
    ensures Imported(ivs, lo, hi) - Exported(ivs, lo, hi) == SignedWattSeconds(ivs, lo, hi)
  {
    if |ivs| > 0 {
      ImportMinusExport(ivs[..|ivs| - 1], lo, hi);
      var power := ivs[|ivs| - 1].power;
      assert power == Positive(power) - Positive(-power);
    }
  }

  lemma {:induction false} StretchesChained(sorted: seq<Reading>)
    requires StableSort.SortedBy(sorted, Time())
    ensures Chained(Stretches(sorted))
    ensures forall i :: i in Stretches(sorted) ==> |sorted| > 0 && i.end <= sorted[|sorted| - 1].observedAt
  {
    if |sorted| >= 2 {
      var a, b := sorted[|sorted| - 2], sorted[|sorted| - 1];
      StretchesChained(sorted[..|sorted| - 1]);
      assert Time()(a) <= Time()(b);
      var front := Stretches(sorted[..|sorted| - 1]);
      assert forall k :: 0 <= k < |front| ==> front[k] in front;
    }
  }

  // Covered and imported seconds are fields of the closed form shared with the power history.
  lemma {:induction false} CoveredIsDirect(ivs: seq<Interval>, threshold: real, lo: int, hi: int)
    ensures Direct(threshold, ivs, lo, hi).covered == Covered(ivs, lo, hi)
    ensures Direct(threshold, ivs, lo, hi).watt == SignedWattSeconds(ivs, lo, hi)
  {
    if |ivs| > 0 {
      CoveredIsDirect(ivs[..|ivs| - 1], threshold, lo, hi);
    }
  }

  lemma {:induction false} CoverageOf(ivs: seq<Interval>, lo: int, hi: int)
    requires Chained(ivs) && lo < hi
    ensures 0.0 <= Covered(ivs, lo, hi) <= Seconds(hi - lo)
  {
    var w := Window(lo, hi, 0.0, m => false);
    TotalIsDirect(w, ivs);
    CoveredIsDirect(ivs, 0.0, lo, hi);
    CoverageBound(w, ivs, Always(), MinuteOf(lo), MinuteOf(hi - 1) + 1);
    ExpectedOf(ivs, lo, hi);
    NonnegativeCover(ivs, lo, hi);
    hide Sum, Direct, Cells, MinuteOf;
  }

  lemma {:induction false} ExpectedOf(ivs: seq<Interval>, lo: int, hi: int)
    requires lo < hi
    ensures Direct(0.0, ivs, lo, hi).expected == Seconds(hi - lo)
  {
    if |ivs| > 0 {
      ExpectedOf(ivs[..|ivs| - 1], lo, hi);
    }
  }

  lemma {:induction false} NonnegativeCover(ivs: seq<Interval>, lo: int, hi: int)
    ensures Covered(ivs, lo, hi) >= 0.0
  {
    if |ivs| > 0 {
      NonnegativeCover(ivs[..|ivs| - 1], lo, hi);
    }
  }

  /**
   For every stream of signed power readings, in any order and with repeated times, the hour is
   covered for at most 3600 seconds and import minus export is the signed integral.
   */
  lemma {:induction false} SignedHour(readings: seq<Reading>, hour: int, h: Hour)
    requires Summarises(StableSort.Sort(readings, Time()), hour, h)
    ensures 0.0 <= h.coveredSeconds <= 3600.0
    ensures h.importKwh.Some? <==> h.coveredSeconds > 0.0
    ensures h.exportKwh.Some? <==> h.coveredSeconds > 0.0
    ensures var signed := SignedWattSeconds(Stretches(StableSort.Sort(readings, Time())), hour, hour + HOUR_MS);
            h.importKwh.Some? ==> h.importKwh.value - h.exportKwh.value == signed / 3600000.0
  {
    var sorted := StableSort.Sort(readings, Time());
    StableSort.SortIsSorted(readings, Time());
    StretchesChained(sorted);
    CoverageOf(Stretches(sorted), hour, hour + HOUR_MS);
    ImportMinusExport(Stretches(sorted), hour, hour + HOUR_MS);
  }

  // ---------- agreement with the power history ----------

  // A reading as the power history sees it.
  function AsObservation(r: Reading): PowerHistory.Observation {
    PowerHistory.Observation(Some(r.observedAt), if r.measured then r.value else None, None)
  }

  function AsObservations(readings: seq<Reading>): (r: seq<PowerHistory.Observation>)
    ensures |r| == |readings| && forall i :: 0 <= i < |r| ==> r[i] == AsObservation(readings[i])
  {
    seq(|readings|, i requires 0 <= i < |readings| => AsObservation(readings[i]))
  }

  function AsSample(r: Reading): PowerHistory.Sample {
    PowerHistory.Sample(r.observedAt, PowerHistory.CleanPower(AsObservation(r)), None)
  }

  function AsSamples(readings: seq<Reading>): (r: seq<PowerHistory.Sample>)
    ensures |r| == |readings| && forall i :: 0 <= i < |r| ==> r[i] == AsSample(readings[i])
  {
    seq(|readings|, i requires 0 <= i < |readings| => AsSample(readings[i]))
  }

  // Power readings at distinct times, each nonnegative or unusable.
  ghost predicate Comparable(readings: seq<Reading>) {
    && StableSort.DistinctKeys(readings, Time())
    && (forall r :: r in readings ==> r.stream.metric.Power? && (Usable(r) ==> r.value.value >= 0.0))
  }

  // With one reading per time, the intake holds that reading.
  lemma {:induction false} IntakeOfReading(readings: seq<Reading>, r: Reading)
    requires StableSort.DistinctKeys(readings, Time()) && r in readings
    ensures var s := PowerHistory.TakenIn(AsObservations(readings));
            && r.observedAt in s.byTime && r.observedAt in s.seriesByTime
            && s.byTime[r.observedAt] == AsSample(r).power && s.seriesByTime[r.observedAt] == None
  {
    var observations := AsObservations(readings);
    var i :| 0 <= i < |readings| && readings[i] == r;
    assert observations[i] in observations;
    forall o | o in observations && o.at == Some(r.observedAt)
      ensures o == AsObservation(r)
    {
      var j :| 0 <= j < |observations| && observations[j] == o;
      assert Time()(readings[j]) == Time()(readings[i]);
    }
    assert PowerHistoryLaws.Agree(observations, r.observedAt, AsSample(r).power, None);
    PowerHistoryLaws.IntakeIsFaithful(observations, r.observedAt);
  }

  lemma {:induction false} ReadingOfTime(readings: seq<Reading>, t: int)
    requires t in PowerHistory.TakenIn(AsObservations(readings)).byTime
    ensures exists r :: r in readings && r.observedAt == t
  {
    PowerHistoryLaws.IntakeIsFaithful(AsObservations(readings), t);
    var o :| o in AsObservations(readings) && o.at == Some(t);
    var i :| 0 <= i < |readings| && AsObservation(readings[i]) == o;
    assert readings[i] in readings;
  }

  lemma {:induction false} SamplesOfReadings(readings: seq<Reading>)
    requires StableSort.DistinctKeys(readings, Time())
    ensures PowerHistory.SamplesOf(AsObservations(readings)) == AsSamples(StableSort.Sort(readings, Time()))
  {
    var observations, sorted := AsObservations(readings), StableSort.Sort(readings, Time());
    var key := (x: PowerHistory.Sample) => x.at;
    PowerHistory.IntakeConsistent(observations);
    PowerHistory.SamplesOfObservations(observations);
    StableSort.SortIsStrict(readings, Time());
    forall i, j | 0 <= i < j < |sorted|
      ensures key(AsSamples(sorted)[i]) < key(AsSamples(sorted)[j])
    {
      assert Time()(sorted[i]) < Time()(sorted[j]);
    }
    forall x
      ensures x in PowerHistory.SamplesOf(observations) <==> x in AsSamples(sorted)
    {
      SameMembers(readings, x);
    }
    StableSort.StrictlySortedUnique(PowerHistory.SamplesOf(observations), AsSamples(sorted), key);
  }

  lemma {:induction false} SameMembers(readings: seq<Reading>, x: PowerHistory.Sample)
    requires StableSort.DistinctKeys(readings, Time())
    ensures x in PowerHistory.SamplesOf(AsObservations(readings)) <==> x in AsSamples(StableSort.Sort(readings, Time()))
  {
    var observations, sorted := AsObservations(readings), StableSort.Sort(readings, Time());
    PowerHistory.IntakeConsistent(observations);
    PowerHistory.SamplesSorted(PowerHistory.TakenIn(observations));
    hide PowerHistory.TakenIn, StableSort.DistinctKeys;
    if x in AsSamples(sorted) {
      var i :| 0 <= i < |sorted| && AsSample(sorted[i]) == x;
      StableSort.SortMembers(readings, Time(), sorted[i]);
      assert sorted[i] in sorted;
      IntakeOfReading(readings, sorted[i]);
    }
    if x in PowerHistory.SamplesOf(observations) {
      ReadingOfTime(readings, x.at);
      var r :| r in readings && r.observedAt == x.at;
      IntakeOfReading(readings, r);
      StableSort.SortMembers(readings, Time(), r);
      var i :| 0 <= i < |sorted| && sorted[i] == r;
      assert AsSamples(sorted)[i] == x;
    }
  }

  lemma {:induction false} BracketedAreStretches(sorted: seq<Reading>)
    requires StableSort.StrictlySortedBy(sorted, Time())
    requires forall r :: r in sorted ==> r.stream.metric.Power? && (Usable(r) ==> r.value.value >= 0.0)
    ensures PowerHistory.Bracketed(AsSamples(sorted), 300.0) == Stretches(sorted)
  {
    hide PowerHistory.Brackets, Integrated, AsSample, Usable;
    var n := |sorted|;
    if n >= 2 {
      BracketedAreStretches(sorted[..n - 1]);
      assert AsSamples(sorted)[..n - 1] == AsSamples(sorted[..n - 1]);
      assert Time()(sorted[n - 2]) < Time()(sorted[n - 1]);
      assert sorted[n - 2] in sorted && sorted[n - 1] in sorted;
      PairBrackets(sorted[n - 2], sorted[n - 1]);
    }
  }

  lemma {:induction false} PairBrackets(a: Reading, b: Reading)
    requires a.observedAt < b.observedAt && a.stream.metric.Power? && b.stream.metric.Power?
    requires (Usable(a) ==> a.value.value >= 0.0) && (Usable(b) ==> b.value.value >= 0.0)
    ensures PowerHistory.Brackets(AsSample(a), AsSample(b), 300.0) == Integrated(a, b)
    ensures Integrated(a, b) ==> AsSample(a).power == a.value && a.value.Some?
    ensures AsSample(a).at == a.observedAt && AsSample(b).at == b.observedAt
  {
  }

  lemma {:induction false} SortedComparable(readings: seq<Reading>)
    requires Comparable(readings)
    ensures forall r :: r in StableSort.Sort(readings, Time()) ==>
            r.stream.metric.Power? && (Usable(r) ==> r.value.value >= 0.0)
  {
    forall r | r in StableSort.Sort(readings, Time())
      ensures r.stream.metric.Power? && (Usable(r) ==> r.value.value >= 0.0)
    {
      StableSort.SortMembers(readings, Time(), r);
    }
  }

  // Both modules integrate the same intervals.
  lemma {:induction false} SameIntervals(readings: seq<Reading>)
    requires Comparable(readings)
    ensures PowerHistory.IntervalsOf(AsObservations(readings), 300.0) == Stretches(StableSort.Sort(readings, Time()))
  {
    SortedComparable(readings);
    SamplesOfReadings(readings);
    StableSort.SortIsStrict(readings, Time());
    BracketedAreStretches(StableSort.Sort(readings, Time()));
  }

  /**
   The hourly summary and the power history over the same hour, with a gap of 300 seconds,
   report the same covered seconds and the same energy for power readings at distinct times
   that are nonnegative or unusable, in whatever order they are given.
   */
  lemma {:induction false} HourAgreesWithHistory(readings: seq<Reading>, hour: int, h: Hour, q: PowerHistory.Query,
                              cal: PowerHistory.Calendar, a: PowerHistory.Analysis)
    requires Comparable(readings)
    requires Summarises(StableSort.Sort(readings, Time()), hour, h)
    requires q.from == hour && q.to == hour + HOUR_MS && q.maxGapSeconds == 300.0
    requires PowerHistory.Reports(q, cal, PowerHistory.IntervalsOf(AsObservations(readings), 300.0), a)
    ensures h.coveredSeconds == a.summary.coveredSeconds
    ensures h.importKwh == a.summary.energyKwh
    ensures h.exportKwh == None || h.exportKwh == Some(0.0)
  {
    hide *;
    WholeHour(hour);
    SortedComparable(readings);
    SameIntervals(readings);
    HourIsClosedForm(StableSort.Sort(readings, Time()), hour, h);
    var ivs := Stretches(StableSort.Sort(readings, Time()));
    PowerHistoryLaws.ReportParts(q, cal, ivs, a);
    WindowBounds(q, cal);
    SummaryIsClosedForm(PowerHistory.WindowOf(q, cal), ivs,
                        PowerHistory.AllKnown(q.schedule, PowerHistory.Dates(a.daily)));
  }

  lemma {:induction false} WholeHour(hour: int)
    ensures hour < hour + HOUR_MS
  {
  }

  lemma {:induction false} HourIsClosedForm(sorted: seq<Reading>, hour: int, h: Hour)
    requires Summarises(sorted, hour, h)
    requires forall r :: r in sorted ==> Usable(r) ==> r.value.value >= 0.0
    ensures var ivs := Stretches(sorted);
            && h.coveredSeconds == Covered(ivs, hour, hour + HOUR_MS)
            && h.importKwh == (if h.coveredSeconds > 0.0
                               then Some(SignedWattSeconds(ivs, hour, hour + HOUR_MS) / 3600000.0) else None)
            && (h.exportKwh == None || h.exportKwh == Some(0.0))
  {
    NonnegativeStretches(sorted);
    NoExport(Stretches(sorted), hour, hour + HOUR_MS);
    ImportMinusExport(Stretches(sorted), hour, hour + HOUR_MS);
  }

  lemma {:induction false} SummaryIsClosedForm(w: Window, ivs: seq<Interval>, known: bool)
    requires w.from < w.to
    ensures var s := PowerHistory.StatsOf(Total(w, ivs), known);
            && s.coveredSeconds == Covered(ivs, w.from, w.to)
            && s.energyKwh == if Covered(ivs, w.from, w.to) > 0.0
                              then Some(SignedWattSeconds(ivs, w.from, w.to) / 3600000.0) else None
  {
    hide Total, Direct, Covered, SignedWattSeconds;
    TotalsOf(w, ivs);
  }

  lemma {:induction false} WindowBounds(q: PowerHistory.Query, cal: PowerHistory.Calendar)
    ensures PowerHistory.WindowOf(q, cal).from == q.from && PowerHistory.WindowOf(q, cal).to == q.to
  {
  }

  lemma {:induction false} TotalsOf(w: Window, ivs: seq<Interval>)
    requires w.from < w.to
    ensures Total(w, ivs).covered == Covered(ivs, w.from, w.to)
    ensures Total(w, ivs).watt == SignedWattSeconds(ivs, w.from, w.to)
  {
    hide Total, Direct, Covered, SignedWattSeconds;
    TotalIsDirect(w, ivs);
    CoveredIsDirect(ivs, w.threshold, w.from, w.to);
  }

  lemma {:induction false} NonnegativeStretches(sorted: seq<Reading>)
    requires forall r :: r in sorted ==> Usable(r) ==> r.value.value >= 0.0
    ensures forall i :: i in Stretches(sorted) ==> i.power >= 0.0
  {
    if |sorted| >= 2 {
      NonnegativeStretches(sorted[..|sorted| - 1]);
      assert sorted[|sorted| - 2] in sorted;
    }
  }

  lemma {:induction false} NoExport(ivs: seq<Interval>, lo: int, hi: int)
    requires forall i :: i in ivs ==> i.power >= 0.0
    ensures Exported(ivs, lo, hi) == 0.0
  {
    if |ivs| > 0 {
      assert ivs[|ivs| - 1] in ivs;
      assert Positive(-ivs[|ivs| - 1].power) == 0.0;
      NoExport(ivs[..|ivs| - 1], lo, hi);
    }
  }
}
