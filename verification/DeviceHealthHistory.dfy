/**
 Device health buckets: the incremental fold of observations into an hourly or daily bucket,
 and the rebuilding of a daily bucket from its hourly ones. Times are milliseconds, a thrown
 error is a missing result.
 */
module DeviceHealthHistory {
  import opened Wrappers
  import opened RecordMerge
  import StableSort

  datatype Semantics = Gauge | Counter

  datatype Metric = Metric(name: string, value: Option<real>, unit: string, semantics: Semantics, source: string)

  datatype Device = Device(tenantId: string, siteId: string, deviceId: string, physicalDeviceId: string)

  datatype Observation = Observation(device: Device, observedAt: int, bootSessionId: string, metrics: seq<Metric>)

  // A gauge summary without its count of missing samples.
  datatype GaugeCore = GaugeCore(minimum: real, maximum: real, sum: real, sampleCount: nat, firstValue: real,
                                 firstAt: int, lastValue: real, lastAt: int, unit: string, source: string)

  datatype GaugeSummary = GaugeSummary(core: GaugeCore, missingSampleCount: nat)

  datatype CounterSummary = CounterSummary(bootSessionId: string, firstValue: real, firstAt: int, lastValue: real,
                                           lastAt: int, delta: Option<real>, resetObserved: bool,
                                           orderingComplete: bool, unit: string, source: string)

  datatype Granularity = Hourly | Daily

  datatype Bucket = Bucket(device: Device, granularity: Granularity, startAt: int, endAt: int, firstAt: int,
                           lastAt: int, sampleCount: nat, expectedIntervalMs: int, expectedSampleCount: nat,
                           missingSampleCount: nat, coverageRatio: real, partial: bool,
                           metrics: map<string, GaugeSummary>, counters: map<string, seq<CounterSummary>>)

  const HOUR_MS: int := 3600000
  const DAY_MS: int := 86400000

  function Max(a: int, b: int): int { if a < b then b else a }

  function RMin(a: real, b: real): real { if a < b then a else b }

  function RMax(a: real, b: real): real { if a < b then b else a }

  function Width(g: Granularity): int { if g.Hourly? then HOUR_MS else DAY_MS }

  function BucketStart(at: int, g: Granularity): int { at / Width(g) * Width(g) }

  function ExpectedSamples(firstAt: int, lastAt: int, intervalMs: int): nat
    requires intervalMs > 0
  {
    Max(1, (lastAt - firstAt) / intervalMs + 1)
  }

  function Missing(expected: int, count: int): nat { Max(0, expected - count) }

  function MakeBucket(device: Device, g: Granularity, startAt: int, firstAt: int, lastAt: int, count: nat,
      intervalMs: int, metrics: map<string, GaugeSummary>, counters: map<string, seq<CounterSummary>>): Bucket
    requires intervalMs > 0
  {
    var expected := ExpectedSamples(firstAt, lastAt, intervalMs);
    Bucket(device, g, startAt, startAt + Width(g), firstAt, lastAt, count, intervalMs, expected,
           Missing(expected, count), RMin(1.0, count as real / expected as real),
           firstAt > startAt || lastAt < startAt + Width(g) - intervalMs, metrics, counters)
  }

  // ---------- one reading ----------

  function FirstCore(m: Metric, at: int): GaugeCore
    requires m.value.Some?
  {
    GaugeCore(m.value.value, m.value.value, m.value.value, 1, m.value.value, at, m.value.value, at, m.unit, m.source)
  }

  function UpdateCore(c: GaugeCore, m: Metric, at: int): GaugeCore
    requires m.value.Some?
  {
    var v := m.value.value;
    GaugeCore(RMin(c.minimum, v), RMax(c.maximum, v), c.sum + v, c.sampleCount + 1,
              if at < c.firstAt then v else c.firstValue, if at < c.firstAt then at else c.firstAt,
              if at >= c.lastAt then v else c.lastValue, if at >= c.lastAt then at else c.lastAt, m.unit, m.source)
  }

  // The new core of a gauge, or None when its unit or source changed.
  function StepCore(c: Option<GaugeCore>, m: Metric, at: int): Option<GaugeCore>
    requires m.value.Some?
  {
    if c.None? then Some(FirstCore(m, at))
    else if c.value.unit != m.unit || c.value.source != m.source then None
    else Some(UpdateCore(c.value, m, at))
  }

  function FirstCounter(boot: string, m: Metric, at: int): CounterSummary
    requires m.value.Some?
  {
    CounterSummary(boot, m.value.value, at, m.value.value, at, Some(0.0), false, true, m.unit, m.source)
  }

  function UpdateCounter(c: CounterSummary, v: real, at: int): CounterSummary {
    if at < c.firstAt then
      c.(firstValue := v, firstAt := at, orderingComplete := false,
         resetObserved := c.resetObserved || v > c.lastValue, delta := None)
    else if at >= c.lastAt then
      var reset := c.resetObserved || v < c.lastValue;
      c.(resetObserved := reset, lastValue := v, lastAt := at,
         delta := if reset || !c.orderingComplete then None else Some(v - c.firstValue))
    else c.(orderingComplete := false, delta := None)
  }

  // Position of the first summary of the boot session, or the length when there is none.
  function FindBoot(series: seq<CounterSummary>, boot: string): (i: nat)
    ensures i <= |series|
    ensures i < |series| ==> series[i].bootSessionId == boot
    ensures forall j :: 0 <= j < i ==> series[j].bootSessionId != boot
  {
    if |series| == 0 || series[0].bootSessionId == boot then 0 else 1 + FindBoot(series[1..], boot)
  }

  function PlainStep(series: seq<CounterSummary>, boot: string, m: Metric, at: int): Option<seq<CounterSummary>>
    requires m.value.Some?
  {
    var i := FindBoot(series, boot);
    if i == |series| then Some(series + [FirstCounter(boot, m, at)])
    else if series[i].unit != m.unit || series[i].source != m.source then None
    else Some(series[i := UpdateCounter(series[i], m.value.value, at)])
  }

  function FirstTime(): CounterSummary -> int { (c: CounterSummary) => c.firstAt }

  // The series is sorted again after every reading.
  function StepSeries(series: seq<CounterSummary>, boot: string, m: Metric, at: int): Option<seq<CounterSummary>>
    requires m.value.Some?
  {
    var r := PlainStep(series, boot, m, at);
    if r.None? then None else Some(StableSort.Sort(r.value, FirstTime()))
  }

  function OrEmpty(series: Option<seq<CounterSummary>>): seq<CounterSummary> {
    if series.None? then [] else series.value
  }

  // ---------- one observation ----------

  function CoreIn(metrics: map<string, GaugeSummary>, name: string): Option<GaugeCore> {
    if name in metrics then Some(metrics[name].core) else None
  }

  // The two records of a bucket.
  datatype Records = Records(metrics: map<string, GaugeSummary>, counters: map<string, seq<CounterSummary>>)

  function StepMetric(s: Records, m: Metric, boot: string, at: int, expected: nat): Option<Records> {
    if m.value.None? then Some(s)
    else if m.semantics.Gauge? then
      var core := StepCore(CoreIn(s.metrics, m.name), m, at);
      if core.None? then None
      else Some(s.(metrics := s.metrics[m.name := GaugeSummary(core.value, Missing(expected, core.value.sampleCount))]))
    else
      var series := StepSeries(OrEmpty(Get(s.counters, m.name)), boot, m, at);
      if series.None? then None else Some(s.(counters := s.counters[m.name := series.value]))
  }

  function StepMetrics(s: Records, ms: seq<Metric>, boot: string, at: int, expected: nat): Option<Records> {
    if |ms| == 0 then Some(s)
    else
      var r := StepMetrics(s, ms[..|ms| - 1], boot, at, expected);
      if r.None? then None else StepMetric(r.value, ms[|ms| - 1], boot, at, expected)
  }

  // A bucket of another start is not continued.
  function Prior(previous: Option<Bucket>, at: int, g: Granularity): Option<Bucket> {
    if previous.Some? && previous.value.startAt == BucketStart(at, g) then previous else None
  }

  function FirstAt(prior: Option<Bucket>, at: int): int {
    if prior.None? || at < prior.value.firstAt then at else prior.value.firstAt
  }

  function LastAt(prior: Option<Bucket>, at: int): int {
    if prior.None? || at >= prior.value.lastAt then at else prior.value.lastAt
  }

  function RecordsOf(prior: Option<Bucket>): Records {
    if prior.None? then Records(map[], map[]) else Records(prior.value.metrics, prior.value.counters)
  }

  function Apply(previous: Option<Bucket>, o: Observation, g: Granularity, intervalMs: int): Option<Bucket>
    requires intervalMs > 0
  {
    var prior, at := Prior(previous, o.observedAt, g), o.observedAt;
    var expected := ExpectedSamples(FirstAt(prior, at), LastAt(prior, at), intervalMs);
    var r := StepMetrics(RecordsOf(prior), o.metrics, o.bootSessionId, at, expected);
    if r.None? then None
    else Some(MakeBucket(o.device, g, BucketStart(at, g), FirstAt(prior, at), LastAt(prior, at),
                         1 + (if prior.Some? then prior.value.sampleCount else 0), intervalMs,
                         r.value.metrics, r.value.counters))
  }

  /** The incremental fold of one observation into its bucket. */
  method ApplyDeviceHealthObservation(previous: Option<Bucket>, o: Observation, g: Granularity, intervalMs: int)
    returns (r: Option<Bucket>)
    requires intervalMs > 0
    ensures r == Apply(previous, o, g, intervalMs)
  {
    hide StepMetrics, MakeBucket, StableSort.Sort, UpdateCounter, FirstCounter, StepCore;
    var startAt := BucketStart(o.observedAt, g);
    var prior := if previous.Some? && previous.value.startAt == startAt then previous else None;
    var firstAt, lastAt := FirstAt(prior, o.observedAt), LastAt(prior, o.observedAt);
    var count := (if prior.Some? then prior.value.sampleCount else 0) + 1;
    var expected := ExpectedSamples(firstAt, lastAt, intervalMs);
    var metrics, counters := RecordsOf(prior).metrics, RecordsOf(prior).counters;
    NoMetrics(RecordsOf(prior), o.metrics, o.bootSessionId, o.observedAt, expected);
    for n := 0 to |o.metrics|
      invariant StepMetrics(RecordsOf(prior), o.metrics[..n], o.bootSessionId, o.observedAt, expected)
             == Some(Records(metrics, counters))
    {
      var m := o.metrics[n];
      NextMetric(RecordsOf(prior), o.metrics, o.bootSessionId, o.observedAt, expected, n);
      if m.value.None? {
        continue;
      }
      if m.semantics.Gauge? {
        var core := StepCore(CoreIn(metrics, m.name), m, o.observedAt);
        if core.None? {
          FailedMetric(RecordsOf(prior), o.metrics, o.bootSessionId, o.observedAt, expected, n + 1);
          return None;
        }
        metrics := metrics[m.name := GaugeSummary(core.value, Missing(expected, core.value.sampleCount))];
        continue;
      }
      var series := OrEmpty(Get(counters, m.name));
      var i := FindBoot(series, o.bootSessionId);
      if i < |series| && (series[i].unit != m.unit || series[i].source != m.source) {
        FailedMetric(RecordsOf(prior), o.metrics, o.bootSessionId, o.observedAt, expected, n + 1);
        return None;
      }
      if i == |series| {
        series := series + [FirstCounter(o.bootSessionId, m, o.observedAt)];
      } else {
        series := series[i := UpdateCounter(series[i], m.value.value, o.observedAt)];
      }
      counters := counters[m.name := StableSort.Sort(series, FirstTime())];
    }
    assert o.metrics[..|o.metrics|] == o.metrics;
    r := Some(MakeBucket(o.device, g, startAt, firstAt, lastAt, count, intervalMs, metrics, counters));
  }

  lemma {:induction false} NoMetrics(s: Records, ms: seq<Metric>, boot: string, at: int, expected: nat)
    ensures StepMetrics(s, ms[..0], boot, at, expected) == Some(s)
  {
  }

  lemma {:induction false} NextMetric(s: Records, ms: seq<Metric>, boot: string, at: int, expected: nat, n: nat)
    requires n < |ms|
    ensures var r := StepMetrics(s, ms[..n], boot, at, expected);
            StepMetrics(s, ms[..n + 1], boot, at, expected)
            == if r.None? then None else StepMetric(r.value, ms[n], boot, at, expected)
  {
    assert ms[..n + 1][..n] == ms[..n];
  }

  lemma {:induction false} FailedMetric(s: Records, ms: seq<Metric>, boot: string, at: int, expected: nat, n: nat)
    requires n <= |ms| && StepMetrics(s, ms[..n], boot, at, expected).None?
    ensures StepMetrics(s, ms, boot, at, expected).None?
    decreases |ms| - n
  {
    if n < |ms| {
      assert ms[..n + 1][..n] == ms[..n];
      FailedMetric(s, ms, boot, at, expected, n + 1);
    } else {
      assert ms[..n] == ms;
    }
  }

  // ---------- rebuilding a day ----------

  // Joining two gauges of which either may be the earlier one.
  function JoinCores(e: GaugeCore, c: GaugeCore): GaugeCore {
    GaugeCore(RMin(e.minimum, c.minimum), RMax(e.maximum, c.maximum), e.sum + c.sum, e.sampleCount + c.sampleCount,
              if c.firstAt < e.firstAt then c.firstValue else e.firstValue,
              if c.firstAt < e.firstAt then c.firstAt else e.firstAt,
              if c.lastAt >= e.lastAt then c.lastValue else e.lastValue,
              if c.lastAt >= e.lastAt then c.lastAt else e.lastAt,
              c.unit, c.source)
  }

  function MergeCore(e: Option<GaugeCore>, c: GaugeCore): Option<GaugeCore> {
    if e.None? then Some(c)
    else if e.value.unit != c.unit || e.value.source != c.source then None
    else Some(JoinCores(e.value, c))
  }

  function JoinCounters(e: CounterSummary, c: CounterSummary): CounterSummary {
    var earlier, later := c.firstAt < e.firstAt, c.lastAt > e.lastAt;
    var firstValue := if earlier then c.firstValue else e.firstValue;
    var lastValue := if later then c.lastValue else e.lastValue;
    var reset := e.resetObserved || c.resetObserved || (earlier && c.lastValue < e.firstValue)
      || (later && c.firstValue < e.lastValue);
    var complete := e.orderingComplete && c.orderingComplete && (earlier || later);
    e.(firstValue := firstValue, firstAt := if earlier then c.firstAt else e.firstAt, lastValue := lastValue,
       lastAt := if later then c.lastAt else e.lastAt, resetObserved := reset, orderingComplete := complete,
       delta := if reset || !complete then None else Some(lastValue - firstValue))
  }

  function MergeCounter(target: seq<CounterSummary>, c: CounterSummary): Option<seq<CounterSummary>> {
    var i := FindBoot(target, c.bootSessionId);
    if i == |target| then Some(target + [c])
    else if target[i].unit != c.unit || target[i].source != c.source then None
    else Some(target[i := JoinCounters(target[i], c)])
  }

  function MergeSeries(target: seq<CounterSummary>, series: seq<CounterSummary>): Option<seq<CounterSummary>> {
    if |series| == 0 then Some(target)
    else
      var r := MergeSeries(target, series[..|series| - 1]);
      if r.None? then None else MergeCounter(r.value, series[|series| - 1])
  }

  // What the day knows, before missing samples are counted.
  datatype State = State(gauges: map<string, GaugeCore>, counters: map<string, seq<CounterSummary>>)

  function Cores(metrics: map<string, GaugeSummary>): map<string, GaugeCore> {
    map n | n in metrics :: metrics[n].core
  }

  function StateOf(s: Records): State {
    State(Cores(s.metrics), s.counters)
  }

  function JoinGauge(): (Option<GaugeCore>, GaugeCore) -> Option<GaugeCore> {
    (e, c) => MergeCore(e, c)
  }

  function JoinSeries(): (Option<seq<CounterSummary>>, seq<CounterSummary>) -> Option<seq<CounterSummary>> {
    (e, c) => MergeSeries(OrEmpty(e), c)
  }

  ghost function Merge(e: State, s: State): Option<State> {
    var g, c := MergeMaps(e.gauges, s.gauges, JoinGauge()), MergeMaps(e.counters, s.counters, JoinSeries());
    if g.None? || c.None? then None else Some(State(g.value, c.value))
  }

  function EmptyState(): State { State(map[], map[]) }

  ghost function MergeAll(buckets: seq<Bucket>): Option<State> {
    if |buckets| == 0 then Some(EmptyState())
    else
      var r, last := MergeAll(buckets[..|buckets| - 1]), buckets[|buckets| - 1];
      if r.None? then None else Merge(r.value, StateOf(Records(last.metrics, last.counters)))
  }

  function InDay(buckets: seq<Bucket>, dayStart: int): seq<Bucket> {
    if |buckets| == 0 then []
    else
      var front, last := InDay(buckets[..|buckets| - 1], dayStart), buckets[|buckets| - 1];
      if dayStart <= last.startAt < dayStart + DAY_MS then front + [last] else front
  }

  function StartTime(): Bucket -> int { (b: Bucket) => b.startAt }

  function EarliestAt(buckets: seq<Bucket>): int
    requires |buckets| > 0
  {
    if |buckets| == 1 then buckets[0].firstAt
    else
      var at, last := EarliestAt(buckets[..|buckets| - 1]), buckets[|buckets| - 1].firstAt;
      if last < at then last else at
  }

  function LatestAt(buckets: seq<Bucket>): int
    requires |buckets| > 0
  {
    if |buckets| == 1 then buckets[0].lastAt
    else
      var at, last := LatestAt(buckets[..|buckets| - 1]), buckets[|buckets| - 1].lastAt;
      if last > at then last else at
  }

  function SampleTotal(buckets: seq<Bucket>): nat {
    if |buckets| == 0 then 0 else SampleTotal(buckets[..|buckets| - 1]) + buckets[|buckets| - 1].sampleCount
  }

  function CountMissing(gauges: map<string, GaugeCore>, expected: nat): map<string, GaugeSummary> {
    map n | n in gauges :: GaugeSummary(gauges[n], Missing(expected, gauges[n].sampleCount))
  }

  function SortAll(counters: map<string, seq<CounterSummary>>): map<string, seq<CounterSummary>> {
    map n | n in counters :: StableSort.Sort(counters[n], FirstTime())
  }

  function DayBucket(buckets: seq<Bucket>, dayStart: int, intervalMs: int, state: State): Bucket
    requires |buckets| > 0 && intervalMs > 0
  {
    var firstAt, lastAt := EarliestAt(buckets), LatestAt(buckets);
    MakeBucket(buckets[0].device, Daily, dayStart, firstAt, lastAt, SampleTotal(buckets), intervalMs,
               CountMissing(state.gauges, ExpectedSamples(firstAt, lastAt, intervalMs)), SortAll(state.counters))
  }

  // None when the source throws, Some(None) when it answers null.
  ghost function Summarize(hourly: seq<Bucket>, dayStart: int, intervalMs: int): Option<Option<Bucket>>
    requires intervalMs > 0
  {
    var buckets := StableSort.Sort(InDay(hourly, dayStart), StartTime());
    if |buckets| == 0 then Some(None)
    else
      var state := MergeAll(buckets);
      if state.None? then None else Some(Some(DayBucket(buckets, dayStart, intervalMs, state.value)))
  }

  // The loop over the gauges of one hour; their order plays no part.
  method MergeGaugeEntries(e: map<string, GaugeCore>, g: map<string, GaugeCore>)
    returns (r: Option<map<string, GaugeCore>>)
    ensures r == MergeMaps(e, g, JoinGauge())
  {
    hide MergeMaps;
    var metrics, names := e, g.Keys;
    while names != {}
      invariant Merged(e, g, JoinGauge(), metrics, names)
      decreases |names|
    {
      var name :| name in names;
      NextEntry(e, g, JoinGauge(), metrics, names, name);
      var core := MergeCore(Get(metrics, name), g[name]);
      if core.None? {
        return None;
      }
      metrics := metrics[name := core.value];
      names := names - {name};
    }
    AllEntries(e, g, JoinGauge(), metrics);
    r := Some(metrics);
  }

  // The inner loop over the boot sessions of one counter.
  method MergeSeriesEntries(target: seq<CounterSummary>, series: seq<CounterSummary>)
    returns (r: Option<seq<CounterSummary>>)
    ensures r == MergeSeries(target, series)
  {
    var merged := target;
    for k := 0 to |series|
      invariant MergeSeries(target, series[..k]) == Some(merged)
    {
      var counter := series[k];
      assert series[..k + 1][..k] == series[..k];
      var i := FindBoot(merged, counter.bootSessionId);
      if i < |merged| && (merged[i].unit != counter.unit || merged[i].source != counter.source) {
        FailedSeries(target, series, k + 1);
        return None;
      }
      if i == |merged| {
        merged := merged + [counter];
      } else {
        merged := merged[i := JoinCounters(merged[i], counter)];
      }
    }
    assert series[..|series|] == series;
    r := Some(merged);
  }

  lemma {:induction false} FailedSeries(target: seq<CounterSummary>, series: seq<CounterSummary>, k: nat)
    requires k <= |series| && MergeSeries(target, series[..k]).None?
    ensures MergeSeries(target, series).None?
    decreases |series| - k
  {
    if k < |series| {
      assert series[..k + 1][..k] == series[..k];
      FailedSeries(target, series, k + 1);
    } else {
      assert series[..k] == series;
    }
  }

  method MergeCounterEntries(e: map<string, seq<CounterSummary>>, c: map<string, seq<CounterSummary>>)
    returns (r: Option<map<string, seq<CounterSummary>>>)
    ensures r == MergeMaps(e, c, JoinSeries())
  {
    hide MergeMaps, MergeSeries;
    var counters, names := e, c.Keys;
    while names != {}
      invariant Merged(e, c, JoinSeries(), counters, names)
      decreases |names|
    {
      var name :| name in names;
      NextEntry(e, c, JoinSeries(), counters, names, name);
      var series := MergeSeriesEntries(OrEmpty(Get(counters, name)), c[name]);
      if series.None? {
        return None;
      }
      counters := counters[name := series.value];
      names := names - {name};
    }
    AllEntries(e, c, JoinSeries(), counters);
    r := Some(counters);
  }

  /** A daily bucket rebuilt from its hourly buckets. */
  method SummarizeDailyFromHourly(hourly: seq<Bucket>, dayStart: int, intervalMs: int)
    returns (r: Option<Option<Bucket>>)
    requires intervalMs > 0
    ensures r == Summarize(hourly, dayStart, intervalMs)
  {
    hide MergeMaps;
    var buckets := StableSort.Sort(InDay(hourly, dayStart), StartTime());
    if |buckets| == 0 {
      return Some(None);
    }
    var metrics, counters := map[], map[];
    for k := 0 to |buckets|
      invariant MergeAll(buckets[..k]) == Some(State(metrics, counters))
    {
      var bucket := buckets[k];
      assert buckets[..k + 1][..k] == buckets[..k];
      ghost var step := Merge(State(metrics, counters), StateOf(Records(bucket.metrics, bucket.counters)));
      assert MergeAll(buckets[..k + 1]) == step;
      var g := MergeGaugeEntries(metrics, Cores(bucket.metrics));
      if g.None? {
        FailedMerge(buckets, k + 1);
        return None;
      }
      var c := MergeCounterEntries(counters, bucket.counters);
      if c.None? {
        FailedMerge(buckets, k + 1);
        return None;
      }
      metrics, counters := g.value, c.value;
    }
    assert buckets[..|buckets|] == buckets;
    r := Some(Some(DayBucket(buckets, dayStart, intervalMs, State(metrics, counters))));
  }

  lemma {:induction false} FailedMerge(buckets: seq<Bucket>, k: nat)
    requires k <= |buckets| && MergeAll(buckets[..k]).None?
    ensures MergeAll(buckets).None?
    decreases |buckets| - k
  {
    if k < |buckets| {
      assert buckets[..k + 1][..k] == buckets[..k];
      FailedMerge(buckets, k + 1);
    } else {
      assert buckets[..k] == buckets;
    }
  }
}
