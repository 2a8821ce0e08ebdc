/**
 Rolling observations up hour by hour and then into a day is the same as folding them into the
 day directly.
 */
module DeviceHealthLaws {
  import opened Wrappers
  import opened DeviceHealthHistory
  import opened RecordMerge
  import StableSort

  // ---------- times ----------

  // Every summary lies between lo and hi, and each series is sorted and names a boot session once.
  ghost predicate SeriesBetween(series: seq<CounterSummary>, lo: int, hi: int) {
    && (forall i :: 0 <= i < |series| ==> lo <= series[i].firstAt <= series[i].lastAt <= hi)
    && (forall i, j :: 0 <= i < j < |series| ==> series[i].firstAt <= series[j].firstAt)
    && (forall i, j :: 0 <= i < j < |series| ==> series[i].bootSessionId != series[j].bootSessionId)
  }

  ghost predicate CoreBetween(c: GaugeCore, lo: int, hi: int) { lo <= c.firstAt <= c.lastAt <= hi }

  ghost predicate Between(s: State, lo: int, hi: int) {
    && (forall n :: n in s.gauges ==> CoreBetween(s.gauges[n], lo, hi))
    && (forall n :: n in s.counters ==> SeriesBetween(s.counters[n], lo, hi))
  }

  // ---------- counters ----------

  // In time order the repeated sorting changes nothing.
  lemma {:induction false} SortedStep(series: seq<CounterSummary>, boot: string, m: Metric, lo: int, hi: int, at: int)
    requires m.value.Some? && SeriesBetween(series, lo, hi) && lo <= at && hi <= at
    ensures StepSeries(series, boot, m, at) == PlainStep(series, boot, m, at)
    ensures PlainStep(series, boot, m, at).Some? ==> SeriesBetween(PlainStep(series, boot, m, at).value, lo, at)
  {
    hide StableSort.Sort;
    var r := PlainStep(series, boot, m, at);
    if r.Some? {
      PlainStepBetween(series, boot, m, lo, hi, at);
      StableSort.SortOfSorted(r.value, FirstTime());
    }
  }

  lemma {:induction false} PlainStepBetween(series: seq<CounterSummary>, boot: string, m: Metric, lo: int, hi: int,
      at: int)
    requires m.value.Some? && SeriesBetween(series, lo, hi) && lo <= at && hi <= at
    requires PlainStep(series, boot, m, at).Some?
    ensures SeriesBetween(PlainStep(series, boot, m, at).value, lo, at)
  {
  }

  // An earlier summary joined with a later one, then updated, is the earlier one joined with the updated later one.
  lemma {:induction false} JoinThenUpdate(e: CounterSummary, c: CounterSummary, v: real, at: int)
    requires e.firstAt <= e.lastAt < c.firstAt <= c.lastAt <= at
    ensures UpdateCounter(JoinCounters(e, c), v, at) == JoinCounters(e, UpdateCounter(c, v, at))
  {
  }

  // A first reading of an hour does to the day what merging its one-reading summary does.
  lemma {:induction false} NewCounter(target: seq<CounterSummary>, boot: string, m: Metric, at: int)
    requires m.value.Some?
    requires forall i :: 0 <= i < |target| && target[i].bootSessionId == boot ==>
             target[i].firstAt <= target[i].lastAt < at
    ensures MergeCounter(target, FirstCounter(boot, m, at)) == PlainStep(target, boot, m, at)
  {
  }

  function StepThenMerge(target: seq<CounterSummary>, c: CounterSummary, m: Metric, at: int)
    : Option<seq<CounterSummary>>
    requires m.value.Some?
  {
    if c.unit != m.unit || c.source != m.source then None
    else MergeCounter(target, UpdateCounter(c, m.value.value, at))
  }

  function MergeThenStep(target: seq<CounterSummary>, c: CounterSummary, boot: string, m: Metric, at: int)
    : Option<seq<CounterSummary>>
    requires m.value.Some?
  {
    var r := MergeCounter(target, c);
    if r.None? then None else PlainStep(r.value, boot, m, at)
  }

  // Same boot session: the last summary of the hour may be updated before or after it is merged.
  lemma {:induction false} MergeOwn(target: seq<CounterSummary>, c: CounterSummary, m: Metric, at: int)
    requires m.value.Some? && c.firstAt <= c.lastAt <= at
    requires forall i :: 0 <= i < |target| && target[i].bootSessionId == c.bootSessionId
               ==> target[i].firstAt <= target[i].lastAt < c.firstAt
    ensures MergeThenStep(target, c, c.bootSessionId, m, at) == StepThenMerge(target, c, m, at)
  {
    var i := FindBoot(target, c.bootSessionId);
    var c' := UpdateCounter(c, m.value.value, at);
    if i == |target| {
      FindAppended(target, c);
      FindAppended(target, c');
      if !(c.unit != m.unit || c.source != m.source) {
        assert (target + [c])[|target| := c'] == target + [c'];
      }
    } else if !(target[i].unit != c.unit || target[i].source != c.source) {
      FindReplaced(target, i, JoinCounters(target[i], c));
      if !(c.unit != m.unit || c.source != m.source) {
        JoinThenUpdate(target[i], c, m.value.value, at);
        assert target[i := JoinCounters(target[i], c)][i := JoinCounters(target[i], c')]
          == target[i := JoinCounters(target[i], c')];
      }
    }
  }

  lemma {:induction false} FindAppended(target: seq<CounterSummary>, c: CounterSummary)
    requires FindBoot(target, c.bootSessionId) == |target|
    ensures FindBoot(target + [c], c.bootSessionId) == |target|
  {
    FindFirst(target + [c], c.bootSessionId, |target|);
  }

  lemma {:induction false} FindReplaced(target: seq<CounterSummary>, i: nat, c: CounterSummary)
    requires i < |target| && c.bootSessionId == target[i].bootSessionId
    ensures forall boot :: FindBoot(target[i := c], boot) == FindBoot(target, boot)
  {
    forall boot
      ensures FindBoot(target[i := c], boot) == FindBoot(target, boot)
    {
      var k := FindBoot(target, boot);
      if k < |target| {
        FindFirst(target[i := c], boot, k);
      } else {
        FindNone(target[i := c], boot);
      }
    }
  }

  lemma {:induction false} FindFirst(series: seq<CounterSummary>, boot: string, k: nat)
    requires k < |series| && series[k].bootSessionId == boot
    requires forall j :: 0 <= j < k ==> series[j].bootSessionId != boot
    ensures FindBoot(series, boot) == k
  {
  }

  lemma {:induction false} FindNone(series: seq<CounterSummary>, boot: string)
    requires forall j :: 0 <= j < |series| ==> series[j].bootSessionId != boot
    ensures FindBoot(series, boot) == |series|
  {
  }

  // Different boot sessions, one of them present: the two operations touch different places.
  lemma {:induction false} MergeOther(target: seq<CounterSummary>, c: CounterSummary, boot: string, m: Metric,
      at: int)
    requires m.value.Some? && c.bootSessionId != boot && FindBoot(target, boot) < |target|
    ensures var stepped := PlainStep(target, boot, m, at);
            MergeThenStep(target, c, boot, m, at) == if stepped.None? then None else MergeCounter(stepped.value, c)
  {
    var i, k := FindBoot(target, boot), FindBoot(target, c.bootSessionId);
    var u := UpdateCounter(target[i], m.value.value, at);
    FindReplaced(target, i, u);
    if k == |target| {
      FindFirst(target + [c], boot, i);
      assert (target + [c])[i := u] == target[i := u] + [c];
    } else {
      var j := JoinCounters(target[k], c);
      FindReplaced(target, k, j);
      assert target[k := j][i := u] == target[i := u][k := j];
    }
  }

  // Merging one summary keeps every session known and touches no other session.
  lemma {:induction false} MergeCounterKeeps(r: seq<CounterSummary>, c: CounterSummary, boot: string)
    requires MergeCounter(r, c).Some?
    ensures var r' := MergeCounter(r, c).value;
            && (FindBoot(r, boot) < |r| || boot == c.bootSessionId ==> FindBoot(r', boot) < |r'|)
            && (boot != c.bootSessionId ==> forall i :: 0 <= i < |r'| && r'[i].bootSessionId == boot ==> r'[i] in r)
  {
    var i := FindBoot(r, c.bootSessionId);
    if i == |r| {
      FindAppended(r, c);
      if FindBoot(r, boot) < |r| {
        FindFirst(r + [c], boot, FindBoot(r, boot));
      }
    } else {
      FindReplaced(r, i, JoinCounters(r[i], c));
    }
  }

  // What merging leaves of a boot session that the hour does not mention, and which sessions it knows.
  lemma {:induction false} MergeSeriesKeeps(target: seq<CounterSummary>, series: seq<CounterSummary>, boot: string)
    requires MergeSeries(target, series).Some?
    ensures var r := MergeSeries(target, series).value;
            && (FindBoot(series, boot) < |series| ==> FindBoot(r, boot) < |r|)
            && (FindBoot(series, boot) == |series| ==>
                 forall i :: 0 <= i < |r| && r[i].bootSessionId == boot ==> r[i] in target)
  {
    hide MergeCounter, JoinCounters;
    if |series| > 0 {
      var front, last := series[..|series| - 1], series[|series| - 1];
      MergeSeriesKeeps(target, front, boot);
      MergeCounterKeeps(MergeSeries(target, front).value, last, boot);
      FindInFront(series, boot);
    }
  }

  lemma {:induction false} FindInFront(series: seq<CounterSummary>, boot: string)
    requires |series| > 0
    ensures var front, last := series[..|series| - 1], series[|series| - 1];
            && (FindBoot(series, boot) == |series| ==> FindBoot(front, boot) == |front| && last.bootSessionId != boot)
            && (FindBoot(series, boot) < |series| && last.bootSessionId != boot ==> FindBoot(front, boot) < |front|)
  {
    var front, i := series[..|series| - 1], FindBoot(series, boot);
    if i == |series| {
      FindNone(front, boot);
    } else if series[|series| - 1].bootSessionId != boot {
      FindFirst(front, boot, i);
    }
  }

  ghost function StepMerged(merged: Option<seq<CounterSummary>>, boot: string, m: Metric, at: int)
    : Option<seq<CounterSummary>>
    requires m.value.Some?
  {
    if merged.None? then None else PlainStep(merged.value, boot, m, at)
  }

  ghost function MergeStepped(target: seq<CounterSummary>, stepped: Option<seq<CounterSummary>>)
    : Option<seq<CounterSummary>>
  {
    if stepped.None? then None else MergeSeries(target, stepped.value)
  }

  // A summary of another session at the end of the series neither helps nor hinders.
  lemma {:induction false} OneMoreSession(target: seq<CounterSummary>, series: seq<CounterSummary>, boot: string,
      m: Metric, at: int)
    requires m.value.Some? && FindBoot(series, boot) < |series| - 1 && series[|series| - 1].bootSessionId != boot
    requires var front := series[..|series| - 1];
             MergeStepped(target, PlainStep(front, boot, m, at)) == StepMerged(MergeSeries(target, front), boot, m, at)
    ensures MergeStepped(target, PlainStep(series, boot, m, at)) == StepMerged(MergeSeries(target, series), boot, m, at)
  {
    hide MergeCounter, PlainStep;
    var front, last := series[..|series| - 1], series[|series| - 1];
    var x, s := MergeSeries(target, front), PlainStep(front, boot, m, at);
    FindFirst(front, boot, FindBoot(series, boot));
    StepBeforeLast(series, boot, m, at);
    if s.Some? {
      var longer := s.value + [last];
      assert longer[..|longer| - 1] == s.value && longer[|longer| - 1] == last;
    }
    if x.Some? {
      MergeSeriesKeeps(target, front, boot);
      MergeOther(x.value, last, boot, m, at);
    }
  }

  lemma {:induction false} StepBeforeLast(series: seq<CounterSummary>, boot: string, m: Metric, at: int)
    requires m.value.Some? && FindBoot(series, boot) < |series| - 1
    ensures var s := PlainStep(series[..|series| - 1], boot, m, at);
            PlainStep(series, boot, m, at) == if s.None? then None else Some(s.value + [series[|series| - 1]])
  {
    hide UpdateCounter;
    var front, last, i := series[..|series| - 1], series[|series| - 1], FindBoot(series, boot);
    FindFirst(front, boot, i);
    var u := UpdateCounter(series[i], m.value.value, at);
    assert series[i := u] == front[i := u] + [last];
  }

  /** One more reading of a counter may be folded into the hour before the hour is merged, or into the day after it. */
  lemma {:induction false} SeriesCommute(target: seq<CounterSummary>, series: seq<CounterSummary>, boot: string,
      m: Metric, lo: int, at: int)
    requires m.value.Some? && lo <= at
    requires forall i :: 0 <= i < |target| ==> target[i].firstAt <= target[i].lastAt < lo
    requires SeriesBetween(series, lo, at)
    ensures MergeStepped(target, PlainStep(series, boot, m, at)) == StepMerged(MergeSeries(target, series), boot, m, at)
  {
    hide MergeCounter, UpdateCounter, JoinCounters, FirstCounter;
    var i := FindBoot(series, boot);
    if i == |series| {
      NewSessionCommutes(target, series, boot, m, lo, at);
    } else if i == |series| - 1 {
      LastSessionCommutes(target, series, boot, m, lo, at);
    } else {
      SeriesCommute(target, series[..|series| - 1], boot, m, lo, at);
      OneMoreSession(target, series, boot, m, at);
    }
  }

  lemma {:induction false} NewSessionCommutes(target: seq<CounterSummary>, series: seq<CounterSummary>,
      boot: string, m: Metric, lo: int, at: int)
    requires m.value.Some? && lo <= at && FindBoot(series, boot) == |series|
    requires forall i :: 0 <= i < |target| ==> target[i].firstAt <= target[i].lastAt < lo
    ensures MergeStepped(target, PlainStep(series, boot, m, at)) == StepMerged(MergeSeries(target, series), boot, m, at)
  {
    hide MergeCounter, FirstCounter;
    assert PlainStep(series, boot, m, at).value[..|series|] == series;
    if MergeSeries(target, series).Some? {
      MergeSeriesKeeps(target, series, boot);
      NewCounter(MergeSeries(target, series).value, boot, m, at);
    }
  }

  lemma {:induction false} LastSessionCommutes(target: seq<CounterSummary>, series: seq<CounterSummary>,
      boot: string, m: Metric, lo: int, at: int)
    requires m.value.Some? && lo <= at && |series| > 0 && FindBoot(series, boot) == |series| - 1
    requires forall i :: 0 <= i < |target| ==> target[i].firstAt <= target[i].lastAt < lo
    requires SeriesBetween(series, lo, at)
    ensures MergeStepped(target, PlainStep(series, boot, m, at)) == StepMerged(MergeSeries(target, series), boot, m, at)
  {
    hide MergeCounter, UpdateCounter;
    var front, last := series[..|series| - 1], series[|series| - 1];
    var x, stepped := MergeSeries(target, front), PlainStep(series, boot, m, at);
    FindNoneBefore(series, boot, |series| - 1);
    if x.Some? {
      MergeSeriesKeeps(target, front, boot);
      MergeOwn(x.value, last, m, at);
    }
    if stepped.Some? {
      assert stepped.value[..|series| - 1] == front;
    }
  }

  lemma {:induction false} FindNoneBefore(series: seq<CounterSummary>, boot: string, i: nat)
    requires i < |series| && FindBoot(series, boot) == i
    ensures FindBoot(series[..i], boot) == i
  {
    FindNone(series[..i], boot);
  }

  // ---------- gauges ----------

  lemma {:induction false} CoreCommute(e: Option<GaugeCore>, c: Option<GaugeCore>, m: Metric, lo: int, at: int)
    requires m.value.Some? && lo <= at
    requires e.Some? ==> e.value.firstAt <= e.value.lastAt < lo
    requires c.Some? ==> CoreBetween(c.value, lo, at)
    ensures EntryCommutes(e, c, JoinGauge(), GaugeStep(m, at))
  {
  }

  function GaugeStep(m: Metric, at: int): Option<GaugeCore> -> Option<GaugeCore>
    requires m.value.Some?
  {
    c => StepCore(c, m, at)
  }

  function CounterStep(boot: string, m: Metric, at: int): Option<seq<CounterSummary>> -> Option<seq<CounterSummary>>
    requires m.value.Some?
  {
    c => PlainStep(OrEmpty(c), boot, m, at)
  }

  lemma {:induction false} CounterCommute(e: Option<seq<CounterSummary>>, c: Option<seq<CounterSummary>>,
      boot: string, m: Metric, lo: int, at: int)
    requires m.value.Some? && lo <= at
    requires forall i :: 0 <= i < |OrEmpty(e)| ==> OrEmpty(e)[i].firstAt <= OrEmpty(e)[i].lastAt < lo
    requires SeriesBetween(OrEmpty(c), lo, at)
    ensures EntryCommutes(e, c, JoinSeries(), CounterStep(boot, m, at))
  {
    SeriesCommute(OrEmpty(e), OrEmpty(c), boot, m, lo, at);
  }

  // ---------- one metric ----------

  // One metric on the state alone, in time order.
  ghost function Step(s: State, m: Metric, boot: string, at: int): Option<State> {
    if m.value.None? then Some(s)
    else if m.semantics.Gauge? then
      var g := StepMap(s.gauges, m.name, GaugeStep(m, at));
      if g.None? then None else Some(s.(gauges := g.value))
    else
      var c := StepMap(s.counters, m.name, CounterStep(boot, m, at));
      if c.None? then None else Some(s.(counters := c.value))
  }

  lemma {:induction false} GaugeStepOfRecords(s: Records, m: Metric, at: int, expected: nat)
    requires m.value.Some?
    ensures CoreIn(s.metrics, m.name) == Get(Cores(s.metrics), m.name)
    ensures forall core: GaugeCore ::
      Cores(s.metrics[m.name := GaugeSummary(core, Missing(expected, core.sampleCount))])
        == Cores(s.metrics)[m.name := core]
  {
  }

  lemma {:induction false} CounterStepOfRecords(s: Records, m: Metric, boot: string, at: int, expected: nat,
      lo: int, hi: int)
    requires m.value.Some? && m.semantics.Counter? && Between(StateOf(s), lo, hi) && lo <= at && hi <= at
    ensures Step(StateOf(s), m, boot, at) == StateOfRecords(StepMetric(s, m, boot, at, expected))
    ensures Step(StateOf(s), m, boot, at).Some? ==> Between(Step(StateOf(s), m, boot, at).value, lo, at)
  {
    hide PlainStep, Cores, CoreBetween, SeriesBetween;
    BetweenWiden(StateOf(s), lo, hi, at);
    EmptySeriesBetween(lo, hi);
    SortedStep(OrEmpty(Get(s.counters, m.name)), boot, m, lo, hi, at);
  }

  lemma {:induction false} EmptySeriesBetween(lo: int, hi: int)
    ensures SeriesBetween([], lo, hi)
  {
  }

  // In time order the bucket's own step is the step on states, and the times stay in bounds.
  lemma {:induction false} StepOfRecords(s: Records, m: Metric, boot: string, at: int, expected: nat, lo: int,
      hi: int)
    requires Between(StateOf(s), lo, hi) && lo <= at && hi <= at
    ensures Step(StateOf(s), m, boot, at) == StateOfRecords(StepMetric(s, m, boot, at, expected))
    ensures Step(StateOf(s), m, boot, at).Some? ==> Between(Step(StateOf(s), m, boot, at).value, lo, at)
  {
    hide PlainStep, StepSeries, SeriesBetween;
    if m.value.None? {
      BetweenWiden(StateOf(s), lo, hi, at);
    } else if m.semantics.Counter? {
      CounterStepOfRecords(s, m, boot, at, expected, lo, hi);
    } else {
      BetweenWiden(StateOf(s), lo, hi, at);
      GaugeStepOfRecords(s, m, at, expected);
    }
  }

  ghost function MergeInto(e: State, s: Option<State>): Option<State> {
    if s.None? then None else Merge(e, s.value)
  }

  ghost function StepOn(s: Option<State>, m: Metric, boot: string, at: int): Option<State> {
    if s.None? then None else Step(s.value, m, boot, at)
  }

  lemma {:induction false} StepCommutes(e: State, s: State, m: Metric, boot: string, since: int, lo: int, at: int)
    requires lo <= at && Between(e, since, lo - 1) && Between(s, lo, at)
    ensures MergeInto(e, Step(s, m, boot, at)) == StepOn(Merge(e, s), m, boot, at)
  {
    if m.value.Some? {
      if m.semantics.Gauge? {
        CoreCommute(Get(e.gauges, m.name), Get(s.gauges, m.name), m, lo, at);
        MapsCommute(e.gauges, s.gauges, JoinGauge(), m.name, GaugeStep(m, at));
      } else {
        CounterCommute(Get(e.counters, m.name), Get(s.counters, m.name), boot, m, lo, at);
        MapsCommute(e.counters, s.counters, JoinSeries(), m.name, CounterStep(boot, m, at));
      }
    }
  }

  // ---------- one observation ----------

  ghost function StepAll(s: Option<State>, ms: seq<Metric>, boot: string, at: int): Option<State> {
    if |ms| == 0 then s else StepOn(StepAll(s, ms[..|ms| - 1], boot, at), ms[|ms| - 1], boot, at)
  }

  ghost function StateOfRecords(s: Option<Records>): Option<State> {
    if s.None? then None else Some(StateOf(s.value))
  }

  lemma {:induction false} StepsOfRecords(s: Records, ms: seq<Metric>, boot: string, at: int, expected: nat,
      lo: int, hi: int)
    requires Between(StateOf(s), lo, hi) && lo <= at && hi <= at
    ensures StepAll(Some(StateOf(s)), ms, boot, at) == StateOfRecords(StepMetrics(s, ms, boot, at, expected))
    ensures StepAll(Some(StateOf(s)), ms, boot, at).Some? ==>
            Between(StepAll(Some(StateOf(s)), ms, boot, at).value, lo, at)
  {
    hide Between, Step, StepMetric, StateOf;
    if |ms| == 0 {
      BetweenWiden(StateOf(s), lo, hi, at);
    } else {
      StepsOfRecords(s, ms[..|ms| - 1], boot, at, expected, lo, hi);
      var r := StepMetrics(s, ms[..|ms| - 1], boot, at, expected);
      if r.Some? {
        StepOfRecords(r.value, ms[|ms| - 1], boot, at, expected, lo, at);
      }
    }
  }

  lemma {:induction false} BetweenWiden(s: State, lo: int, hi: int, hi': int)
    requires Between(s, lo, hi) && hi <= hi'
    ensures Between(s, lo, hi')
  {
  }

  lemma {:induction false} StepBetween(s: State, m: Metric, boot: string, lo: int, at: int)
    requires Between(s, lo, at) && lo <= at
    ensures Step(s, m, boot, at).Some? ==> Between(Step(s, m, boot, at).value, lo, at)
  {
    hide PlainStep, SeriesBetween;
    if m.value.Some? && m.semantics.Counter? {
      EmptySeriesBetween(lo, at);
      SortedStep(OrEmpty(Get(s.counters, m.name)), boot, m, lo, at, at);
    } else if m.value.Some? {
      GaugeBetween(Get(s.gauges, m.name), m, lo, at);
    }
  }

  lemma {:induction false} GaugeBetween(c: Option<GaugeCore>, m: Metric, lo: int, at: int)
    requires m.value.Some? && lo <= at && (c.Some? ==> CoreBetween(c.value, lo, at))
    ensures StepCore(c, m, at).Some? ==> CoreBetween(StepCore(c, m, at).value, lo, at)
  {
  }

  lemma {:induction false} StepsBetween(s: State, ms: seq<Metric>, boot: string, lo: int, at: int)
    requires Between(s, lo, at) && lo <= at
    ensures StepAll(Some(s), ms, boot, at).Some? ==> Between(StepAll(Some(s), ms, boot, at).value, lo, at)
  {
    hide Between, Step;
    if |ms| > 0 {
      StepsBetween(s, ms[..|ms| - 1], boot, lo, at);
      var r := StepAll(Some(s), ms[..|ms| - 1], boot, at);
      if r.Some? {
        StepBetween(r.value, ms[|ms| - 1], boot, lo, at);
      }
    }
  }

  /** Folding an observation into the hour before merging it is merging the hour and then folding it into the day. */
  lemma {:induction false} ObservationCommutes(e: State, s: State, ms: seq<Metric>, boot: string, since: int,
      lo: int, at: int)
    requires lo <= at && Between(e, since, lo - 1) && Between(s, lo, at)
    ensures MergeInto(e, StepAll(Some(s), ms, boot, at)) == StepAll(Merge(e, s), ms, boot, at)
  {
    hide Between, Step, Merge;
    if |ms| > 0 {
      ObservationCommutes(e, s, ms[..|ms| - 1], boot, since, lo, at);
      var r := StepAll(Some(s), ms[..|ms| - 1], boot, at);
      if r.Some? {
        StepsBetween(s, ms[..|ms| - 1], boot, lo, at);
        StepCommutes(e, r.value, ms[|ms| - 1], boot, since, lo, at);
      }
    }
  }

  // ---------- times of a merged state ----------

  ghost function LastFirst(series: seq<CounterSummary>, lo: int): int {
    if |series| == 0 then lo - 1 else series[|series| - 1].firstAt
  }

  lemma {:induction false} MergeSeriesBetween(target: seq<CounterSummary>, series: seq<CounterSummary>, since: int,
      lo: int, at: int)
    requires since <= lo <= at && SeriesBetween(target, since, lo - 1) && SeriesBetween(series, lo, at)
    requires MergeSeries(target, series).Some?
    ensures SeriesBetween(MergeSeries(target, series).value, since, at)
    ensures forall i :: 0 <= i < |MergeSeries(target, series).value| ==>
              MergeSeries(target, series).value[i].firstAt <= LastFirst(series, lo)
  {
    if |series| > 0 {
      var front, last := series[..|series| - 1], series[|series| - 1];
      MergeSeriesBetween(target, front, since, lo, at);
      var r := MergeSeries(target, front).value;
      FindNone(front, last.bootSessionId);
      MergeSeriesKeeps(target, front, last.bootSessionId);
      assert LastFirst(front, lo) <= last.firstAt;
      MergeCounterBetween(r, last, target, since, lo, at);
    }
  }

  lemma {:induction false} MergeCounterBetween(r: seq<CounterSummary>, c: CounterSummary,
      target: seq<CounterSummary>, since: int, lo: int, at: int)
    requires since <= lo <= at && SeriesBetween(r, since, at) && SeriesBetween(target, since, lo - 1)
    requires lo <= c.firstAt <= c.lastAt <= at
    requires forall i :: 0 <= i < |r| ==> r[i].firstAt <= c.firstAt
    requires forall i :: 0 <= i < |r| && r[i].bootSessionId == c.bootSessionId ==> r[i] in target
    ensures MergeCounter(r, c).Some? ==>
              && SeriesBetween(MergeCounter(r, c).value, since, at)
              && forall i :: 0 <= i < |MergeCounter(r, c).value| ==> MergeCounter(r, c).value[i].firstAt <= c.firstAt
  {
    var i := FindBoot(r, c.bootSessionId);
    if i < |r| {
      assert r[i] in target;
      assert JoinCounters(r[i], c).firstAt == r[i].firstAt;
    }
  }

  lemma {:induction false} MergeBetween(e: State, s: State, since: int, lo: int, at: int)
    requires since <= lo <= at && Between(e, since, lo - 1) && Between(s, lo, at)
    requires Merge(e, s).Some?
    ensures Between(Merge(e, s).value, since, at)
  {
    var r := Merge(e, s).value;
    hide MergeSeries, SeriesBetween, MergeCore;
    forall n | n in r.counters
      ensures SeriesBetween(r.counters[n], since, at)
    {
      MergedSeriesBetween(Get(e.counters, n), if n in s.counters then Some(s.counters[n]) else None, since, lo, at);
      if n in s.counters {
        assert JoinSeries()(Get(e.counters, n), s.counters[n]).Some?;
      }
    }
    forall n | n in r.gauges
      ensures CoreBetween(r.gauges[n], since, at)
    {
      MergedCoreBetween(Get(e.gauges, n), if n in s.gauges then Some(s.gauges[n]) else None, since, lo, at);
      if n in s.gauges {
        assert JoinGauge()(Get(e.gauges, n), s.gauges[n]).Some?;
      }
    }
  }

  lemma {:induction false} MergedSeriesBetween(e: Option<seq<CounterSummary>>, s: Option<seq<CounterSummary>>,
      since: int, lo: int, at: int)
    requires since <= lo <= at
    requires e.Some? ==> SeriesBetween(e.value, since, lo - 1)
    requires s.Some? ==> SeriesBetween(s.value, lo, at)
    ensures s.Some? && MergeSeries(OrEmpty(e), s.value).Some? ==>
            SeriesBetween(MergeSeries(OrEmpty(e), s.value).value, since, at)
    ensures e.Some? ==> SeriesBetween(e.value, since, at)
  {
    if s.Some? && MergeSeries(OrEmpty(e), s.value).Some? {
      MergeSeriesBetween(OrEmpty(e), s.value, since, lo, at);
    }
  }

  lemma {:induction false} MergedCoreBetween(e: Option<GaugeCore>, s: Option<GaugeCore>, since: int, lo: int, at: int)
    requires since <= lo <= at
    requires e.Some? ==> CoreBetween(e.value, since, lo - 1)
    requires s.Some? ==> CoreBetween(s.value, lo, at)
    ensures s.Some? && MergeCore(e, s.value).Some? ==> CoreBetween(MergeCore(e, s.value).value, since, at)
    ensures e.Some? ==> CoreBetween(e.value, since, at)
  {
  }

  lemma {:induction false} MergeEmpty(e: State)
    ensures Merge(e, EmptyState()) == Some(e)
  {
    assert !Clash(e.gauges, map[], JoinGauge()) && !Clash(e.counters, map[], JoinSeries());
    assert MergeMaps(e.gauges, map[], JoinGauge()).value == e.gauges;
    assert MergeMaps(e.counters, map[], JoinSeries()).value == e.counters;
  }

  // ---------- the two ways to a day ----------

  // Observations of one device and one UTC day, in strictly increasing time order.
  ghost predicate OneDay(obs: seq<Observation>, day: int) {
    && day % DAY_MS == 0
    && (forall i :: 0 <= i < |obs| ==> day <= obs[i].observedAt < day + DAY_MS && obs[i].device == obs[0].device)
    && (forall i, j :: 0 <= i < j < |obs| ==> obs[i].observedAt < obs[j].observedAt)
  }

  function LastBucket(buckets: seq<Bucket>): Option<Bucket> {
    if |buckets| == 0 then None else Some(buckets[|buckets| - 1])
  }

  // Each observation folded into the bucket of its hour; a bucket is opened when the hour changes.
  function HourlyFold(obs: seq<Observation>, intervalMs: int): Option<seq<Bucket>>
    requires intervalMs > 0
  {
    if |obs| == 0 then Some([])
    else
      var hours, o := HourlyFold(obs[..|obs| - 1], intervalMs), obs[|obs| - 1];
      if hours.None? then None
      else
        var previous := LastBucket(hours.value);
        var b := Apply(previous, o, Hourly, intervalMs);
        if b.None? then None
        else if Prior(previous, o.observedAt, Hourly).Some? then Some(hours.value[..|hours.value| - 1] + [b.value])
        else Some(hours.value + [b.value])
  }

  // Each observation folded into the bucket of the previous ones; None when an observation is refused.
  function BucketFold(obs: seq<Observation>, g: Granularity, intervalMs: int): Option<Option<Bucket>>
    requires intervalMs > 0
  {
    if |obs| == 0 then Some(None)
    else
      var previous := BucketFold(obs[..|obs| - 1], g, intervalMs);
      if previous.None? then None
      else
        var b := Apply(previous.value, obs[|obs| - 1], g, intervalMs);
        if b.None? then None else Some(Some(b.value))
  }

  ghost function StateFold(obs: seq<Observation>): Option<State> {
    if |obs| == 0 then Some(EmptyState())
    else
      var o := obs[|obs| - 1];
      StepAll(StateFold(obs[..|obs| - 1]), o.metrics, o.bootSessionId, o.observedAt)
  }

  lemma {:induction false} StateFoldBetween(obs: seq<Observation>, day: int)
    requires OneDay(obs, day) && |obs| > 0
    ensures StateFold(obs).Some? ==> Between(StateFold(obs).value, obs[0].observedAt, obs[|obs| - 1].observedAt)
  {
    var front, o := obs[..|obs| - 1], obs[|obs| - 1];
    var s := StateFold(front);
    hide Step;
    if |obs| == 1 {
      StepsBetween(EmptyState(), o.metrics, o.bootSessionId, o.observedAt, o.observedAt);
    } else {
      StateFoldBetween(front, day);
      if s.Some? {
        BetweenWiden(s.value, obs[0].observedAt, front[|front| - 1].observedAt, o.observedAt);
        StepsBetween(s.value, o.metrics, o.bootSessionId, obs[0].observedAt, o.observedAt);
      }
    }
    if s.None? {
      StepAllNone(o.metrics, o.bootSessionId, o.observedAt);
    }
  }

  lemma {:induction false} StepAllNone(ms: seq<Metric>, boot: string, at: int)
    ensures StepAll(None, ms, boot, at) == None
  {
    if |ms| > 0 {
      StepAllNone(ms[..|ms| - 1], boot, at);
    }
  }

  // ---------- the direct way ----------

  lemma {:induction false} DayStart(at: int, day: int)
    requires day % DAY_MS == 0 && day <= at < day + DAY_MS
    ensures BucketStart(at, Daily) == day
  {
    assert at / DAY_MS == day / DAY_MS;
  }

  // Each gauge counts the samples missing up to its own last reading.
  ghost predicate MissingKnown(metrics: map<string, GaugeSummary>, firstAt: int, intervalMs: int)
    requires intervalMs > 0
  {
    forall n :: n in metrics ==>
      metrics[n].missingSampleCount
        == Missing(ExpectedSamples(firstAt, metrics[n].core.lastAt, intervalMs), metrics[n].core.sampleCount)
  }

  lemma {:induction false} MissingStaysKnown(s: Records, ms: seq<Metric>, boot: string, at: int, firstAt: int,
      lo: int, intervalMs: int)
    requires intervalMs > 0 && Between(StateOf(s), lo, at) && lo <= at && MissingKnown(s.metrics, firstAt, intervalMs)
    ensures var r := StepMetrics(s, ms, boot, at, ExpectedSamples(firstAt, at, intervalMs));
            r.Some? ==> MissingKnown(r.value.metrics, firstAt, intervalMs)
  {
    if |ms| > 0 {
      var expected, m := ExpectedSamples(firstAt, at, intervalMs), ms[|ms| - 1];
      MissingStaysKnown(s, ms[..|ms| - 1], boot, at, firstAt, lo, intervalMs);
      StepsOfRecords(s, ms[..|ms| - 1], boot, at, expected, lo, at);
      var r := StepMetrics(s, ms[..|ms| - 1], boot, at, expected);
      if r.Some? && m.value.Some? && m.semantics.Gauge? {
        LastReadingNow(r.value, m, at, lo);
      }
    }
  }

  lemma {:induction false} LastReadingNow(s: Records, m: Metric, at: int, lo: int)
    requires m.value.Some? && Between(StateOf(s), lo, at) && lo <= at
    ensures var core := StepCore(CoreIn(s.metrics, m.name), m, at);
            core.Some? ==> core.value.lastAt == at
  {
    if m.name in s.metrics {
      assert CoreBetween(StateOf(s).gauges[m.name], lo, at);
    }
  }

  ghost predicate IsDirectDay(b: Bucket, obs: seq<Observation>, day: int, intervalMs: int)
    requires intervalMs > 0 && |obs| > 0
  {
    && b == MakeBucket(obs[0].device, Daily, day, obs[0].observedAt, obs[|obs| - 1].observedAt, |obs|, intervalMs,
                       b.metrics, b.counters)
    && MissingKnown(b.metrics, obs[0].observedAt, intervalMs)
  }

  ghost function BucketState(b: Bucket): State { StateOf(Records(b.metrics, b.counters)) }

  // One observation applied to a bucket that it continues, on states.
  lemma {:induction false} ApplyContinues(b: Bucket, o: Observation, g: Granularity, lo: int, hi: int,
      intervalMs: int)
    requires intervalMs > 0 && b.startAt == BucketStart(o.observedAt, g)
    requires b.firstAt <= b.lastAt < o.observedAt && lo <= o.observedAt && hi <= o.observedAt
             && Between(BucketState(b), lo, hi)
    ensures var r := Apply(Some(b), o, g, intervalMs);
            && StepAll(Some(BucketState(b)), o.metrics, o.bootSessionId, o.observedAt)
               == (if r.None? then None else Some(BucketState(r.value)))
            && (r.Some? ==>
                 r.value == MakeBucket(o.device, g, b.startAt, b.firstAt, o.observedAt, b.sampleCount + 1, intervalMs,
                                       r.value.metrics, r.value.counters))
  {
    var expected := ExpectedSamples(b.firstAt, o.observedAt, intervalMs);
    StepsOfRecords(Records(b.metrics, b.counters), o.metrics, o.bootSessionId, o.observedAt, expected, lo, hi);
  }

  // One observation that opens a bucket.
  lemma {:induction false} ApplyOpens(previous: Option<Bucket>, o: Observation, g: Granularity, intervalMs: int)
    requires intervalMs > 0 && Prior(previous, o.observedAt, g).None?
    ensures var r := Apply(previous, o, g, intervalMs);
            && StepAll(Some(EmptyState()), o.metrics, o.bootSessionId, o.observedAt)
               == (if r.None? then None else Some(BucketState(r.value)))
            && (r.Some? ==>
                 r.value == MakeBucket(o.device, g, BucketStart(o.observedAt, g), o.observedAt, o.observedAt, 1,
                                       intervalMs, r.value.metrics, r.value.counters))
  {
    var at := o.observedAt;
    var s := Records(map[], map[]);
    assert StateOf(s) == EmptyState();
    StepsOfRecords(s, o.metrics, o.bootSessionId, at, ExpectedSamples(at, at, intervalMs), at, at);
  }

  lemma {:induction false} ApplyCountsMissing(previous: Option<Bucket>, o: Observation, lo: int, intervalMs: int)
    requires intervalMs > 0
    requires var p := Prior(previous, o.observedAt, Daily);
             p.Some? ==>
               && p.value.firstAt <= p.value.lastAt < o.observedAt && lo <= o.observedAt
               && Between(BucketState(p.value), lo, o.observedAt)
               && MissingKnown(p.value.metrics, p.value.firstAt, intervalMs)
    ensures var r := Apply(previous, o, Daily, intervalMs);
            r.Some? ==> MissingKnown(r.value.metrics, r.value.firstAt, intervalMs)
  {
    var p, at := Prior(previous, o.observedAt, Daily), o.observedAt;
    var lo' := if p.Some? then lo else at;
    MissingStaysKnown(RecordsOf(p), o.metrics, o.bootSessionId, at, FirstAt(p, at), lo', intervalMs);
  }

  lemma {:induction false} DailyFoldIsState(obs: seq<Observation>, day: int, intervalMs: int)
    requires intervalMs > 0 && OneDay(obs, day) && |obs| > 0
    ensures var d, s := BucketFold(obs, Daily, intervalMs), StateFold(obs);
            && (d.None? <==> s.None?)
            && (d.Some? ==>
                 && d.value.Some? && BucketState(d.value.value) == s.value
                 && IsDirectDay(d.value.value, obs, day, intervalMs))
  {
    var front, o := obs[..|obs| - 1], obs[|obs| - 1];
    DayStart(o.observedAt, day);
    hide StepAll, Between, MissingKnown, BucketState;
    if |obs| == 1 {
      ApplyOpens(None, o, Daily, intervalMs);
      ApplyCountsMissing(None, o, 0, intervalMs);
    } else {
      DailyFoldIsState(front, day, intervalMs);
      StateFoldBetween(front, day);
      var d := BucketFold(front, Daily, intervalMs);
      if d.Some? {
        var b := d.value.value;
        BetweenWiden(BucketState(b), b.firstAt, b.lastAt, o.observedAt);
        ApplyContinues(b, o, Daily, b.firstAt, b.lastAt, intervalMs);
        ApplyCountsMissing(Some(b), o, b.firstAt, intervalMs);
      } else {
        StepAllNone(o.metrics, o.bootSessionId, o.observedAt);
      }
    }
  }

  // ---------- the hourly way ----------

  ghost predicate IsHour(b: Bucket, day: int) {
    && day <= b.startAt <= b.firstAt <= b.lastAt < b.startAt + HOUR_MS <= day + DAY_MS
    && b.startAt % HOUR_MS == 0
    && Between(BucketState(b), b.firstAt, b.lastAt)
  }

  // Hourly buckets of one day, one after another.
  ghost predicate HourChain(hours: seq<Bucket>, device: Device, day: int) {
    && (forall i :: 0 <= i < |hours| ==> IsHour(hours[i], day) && hours[i].device == device)
    && (forall i, j :: 0 <= i < j < |hours| ==>
         hours[i].startAt < hours[j].startAt && hours[i].lastAt < hours[j].firstAt)
  }

  lemma {:induction false} HourStart(at: int, day: int)
    requires day % DAY_MS == 0 && day <= at < day + DAY_MS
    ensures var start := BucketStart(at, Hourly);
            start % HOUR_MS == 0 && day <= start <= at < start + HOUR_MS <= day + DAY_MS
  {
    hide BucketStart;
    var k, q := day / DAY_MS, at / HOUR_MS;
    assert BucketStart(at, Hourly) == q * HOUR_MS by {
      HourOf(at);
    }
    assert day == 24 * k * HOUR_MS && q * HOUR_MS <= at < (q + 1) * HOUR_MS;
    WholeHours(q);
  }

  lemma {:induction false} HourOf(at: int)
    ensures BucketStart(at, Hourly) == at / HOUR_MS * HOUR_MS
  {
  }

  lemma {:induction false} WholeHours(q: int)
    ensures q * HOUR_MS % HOUR_MS == 0
  {
  }

  lemma {:induction false} MergeAllBetween(hours: seq<Bucket>, device: Device, day: int)
    requires HourChain(hours, device, day) && |hours| > 0
    ensures MergeAll(hours).Some? ==> Between(MergeAll(hours).value, hours[0].firstAt, hours[|hours| - 1].lastAt)
  {
    hide Between, Merge, BucketState;
    var front, last := hours[..|hours| - 1], hours[|hours| - 1];
    assert IsHour(last, day) && IsHour(hours[0], day);
    BucketStateIs(last);
    var earlier := MergeAll(front);
    assert MergeAll(hours) == if earlier.None? then None else Merge(earlier.value, BucketState(last));
    if |hours| == 1 {
      EmptyBetween(last.firstAt);
      if MergeAll(hours).Some? {
        MergeBetween(EmptyState(), BucketState(last), last.firstAt, last.firstAt, last.lastAt);
      }
    } else {
      MergeAllBetween(front, device, day);
      if MergeAll(hours).Some? {
        BetweenWiden(MergeAll(front).value, hours[0].firstAt, front[|front| - 1].lastAt, last.firstAt - 1);
        MergeBetween(MergeAll(front).value, BucketState(last), hours[0].firstAt, last.firstAt, last.lastAt);
      }
    }
  }

  lemma {:induction false} BucketStateIs(b: Bucket)
    ensures BucketState(b) == StateOf(Records(b.metrics, b.counters))
  {
  }

  lemma {:induction false} EmptyBetween(lo: int)
    ensures Between(EmptyState(), lo, lo - 1)
  {
  }

  // The merged earlier hours lie before the last hour.
  lemma {:induction false} EarlierHours(hours: seq<Bucket>, device: Device, day: int)
    requires HourChain(hours, device, day) && |hours| > 0
    ensures var earlier := MergeAll(hours[..|hours| - 1]);
            earlier.Some? ==> Between(earlier.value, hours[0].firstAt, hours[|hours| - 1].firstAt - 1)
  {
    var front, last := hours[..|hours| - 1], hours[|hours| - 1];
    if |front| == 0 {
      EmptyBetween(last.firstAt);
    } else {
      MergeAllBetween(front, device, day);
      var earlier := MergeAll(front);
      if earlier.Some? {
        BetweenWiden(earlier.value, front[0].firstAt, front[|front| - 1].lastAt, last.firstAt - 1);
      }
    }
  }

  // The last hour continues: fold then merge, or merge then fold.
  lemma {:induction false} ContinueHour(hours: seq<Bucket>, b: Bucket, o: Observation, device: Device, day: int)
    requires HourChain(hours, device, day) && |hours| > 0 && hours[|hours| - 1].lastAt < o.observedAt
    requires StepAll(Some(BucketState(hours[|hours| - 1])), o.metrics, o.bootSessionId, o.observedAt)
             == Some(BucketState(b))
    ensures MergeAll(hours[..|hours| - 1] + [b]) == StepAll(MergeAll(hours), o.metrics, o.bootSessionId, o.observedAt)
  {
    hide Between, Merge, Step;
    var front, last := hours[..|hours| - 1], hours[|hours| - 1];
    assert IsHour(last, day);
    assert (front + [b])[..|front|] == front;
    EarlierHours(hours, device, day);
    var earlier := MergeAll(front);
    if earlier.Some? {
      BetweenWiden(BucketState(last), last.firstAt, last.lastAt, o.observedAt);
      ObservationCommutes(earlier.value, BucketState(last), o.metrics, o.bootSessionId, hours[0].firstAt, last.firstAt,
                          o.observedAt);
    } else {
      StepAllNone(o.metrics, o.bootSessionId, o.observedAt);
    }
  }

  // And when the hour cannot take the observation, neither can the day.
  lemma {:induction false} RefusedByHour(hours: seq<Bucket>, o: Observation, device: Device, day: int)
    requires HourChain(hours, device, day) && |hours| > 0 && hours[|hours| - 1].lastAt < o.observedAt
    requires StepAll(Some(BucketState(hours[|hours| - 1])), o.metrics, o.bootSessionId, o.observedAt) == None
    ensures StepAll(MergeAll(hours), o.metrics, o.bootSessionId, o.observedAt) == None
  {
    hide Between, Merge, Step;
    var front, last := hours[..|hours| - 1], hours[|hours| - 1];
    assert IsHour(last, day);
    EarlierHours(hours, device, day);
    var earlier := MergeAll(front);
    if earlier.Some? {
      BetweenWiden(BucketState(last), last.firstAt, last.lastAt, o.observedAt);
      ObservationCommutes(earlier.value, BucketState(last), o.metrics, o.bootSessionId, hours[0].firstAt, last.firstAt,
                          o.observedAt);
    } else {
      StepAllNone(o.metrics, o.bootSessionId, o.observedAt);
    }
  }

  // A new hour: folding into an empty hour and merging is folding into the day.
  lemma {:induction false} OpenHour(e: State, s: Option<State>, o: Observation, since: int)
    requires Between(e, since, o.observedAt - 1)
    requires s == StepAll(Some(EmptyState()), o.metrics, o.bootSessionId, o.observedAt)
    ensures MergeInto(e, s) == StepAll(Some(e), o.metrics, o.bootSessionId, o.observedAt)
  {
    hide Merge, Step;
    MergeEmpty(e);
    ObservationCommutes(e, EmptyState(), o.metrics, o.bootSessionId, since, o.observedAt, o.observedAt);
  }

  // The hours that the first observations filled.
  ghost predicate HoursOf(hours: seq<Bucket>, obs: seq<Observation>, day: int) {
    && (|hours| == 0 <==> |obs| == 0)
    && SampleTotal(hours) == |obs|
    && (|obs| > 0 ==>
         && |hours| > 0 && HourChain(hours, obs[0].device, day)
         && hours[0].firstAt == obs[0].observedAt && hours[|hours| - 1].lastAt == obs[|obs| - 1].observedAt)
  }

  lemma {:induction false} HourContinues(hours: seq<Bucket>, obs: seq<Observation>, o: Observation, b: Bucket,
      day: int, intervalMs: int)
    requires intervalMs > 0 && |obs| > 0 && HoursOf(hours, obs, day) && OneDay(obs + [o], day)
    requires var last := hours[|hours| - 1];
             && last.startAt == BucketStart(o.observedAt, Hourly)
             && b == MakeBucket(o.device, Hourly, last.startAt, last.firstAt, o.observedAt, last.sampleCount + 1,
                                intervalMs, b.metrics, b.counters)
             && Between(BucketState(b), last.firstAt, o.observedAt)
    ensures HoursOf(hours[..|hours| - 1] + [b], obs + [o], day)
  {
    hide Between, BucketState;
    var front, last := hours[..|hours| - 1], hours[|hours| - 1];
    assert (front + [b])[..|front|] == front;
    assert IsHour(last, day);
    assert (obs + [o])[0] == obs[0] && (obs + [o])[|obs|] == o && (obs + [o])[|obs| - 1] == obs[|obs| - 1];
    HourStart(o.observedAt, day);
    assert IsHour(b, day);
  }

  lemma {:induction false} HourOpens(hours: seq<Bucket>, obs: seq<Observation>, o: Observation, b: Bucket, day: int,
      intervalMs: int)
    requires intervalMs > 0 && HoursOf(hours, obs, day) && OneDay(obs + [o], day)
    requires Prior(LastBucket(hours), o.observedAt, Hourly).None?
    requires b == MakeBucket(o.device, Hourly, BucketStart(o.observedAt, Hourly), o.observedAt, o.observedAt, 1,
                             intervalMs, b.metrics, b.counters)
    requires Between(BucketState(b), o.observedAt, o.observedAt)
    ensures HoursOf(hours + [b], obs + [o], day)
  {
    hide Between, BucketState;
    assert (hours + [b])[..|hours|] == hours;
    assert (obs + [o])[|obs|] == o;
    HourStart(o.observedAt, day);
    assert IsHour(b, day);
    if |obs| > 0 {
      assert (obs + [o])[0] == obs[0] && (obs + [o])[|obs| - 1] == obs[|obs| - 1];
      LaterHour(hours[|hours| - 1], b.startAt, o.observedAt, day);
    }
  }

  lemma {:induction false} LaterHour(last: Bucket, start: int, at: int, day: int)
    requires IsHour(last, day) && last.lastAt < at && start == BucketStart(at, Hourly) && last.startAt != start
    ensures last.startAt < start
  {
  }

  lemma {:induction false} NoHours(day: int)
    ensures MergeAll([]) == Some(EmptyState()) && HoursOf([], [], day)
  {
  }

  lemma {:induction false} OneDayLess(obs: seq<Observation>, day: int)
    requires OneDay(obs, day) && |obs| > 0
    ensures OneDay(obs[..|obs| - 1], day)
  {
  }

  lemma {:induction false} HourlyFoldIsState(obs: seq<Observation>, day: int, intervalMs: int)
    requires intervalMs > 0 && OneDay(obs, day)
    ensures var h, s := HourlyFold(obs, intervalMs), StateFold(obs);
            && (h.None? ==> s.None?)
            && (h.Some? ==> MergeAll(h.value) == s && HoursOf(h.value, obs, day))
  {
    hide StepAll, OneDay, HoursOf, MergeAll, Apply;
    if |obs| == 0 {
      NoHours(day);
    } else {
      var front, o := obs[..|obs| - 1], obs[|obs| - 1];
      assert obs == front + [o];
      OneDayLess(obs, day);
      HourlyFoldIsState(front, day, intervalMs);
      var h := HourlyFold(front, intervalMs);
      if h.None? {
        StepAllNone(o.metrics, o.bootSessionId, o.observedAt);
      } else if Prior(LastBucket(h.value), o.observedAt, Hourly).Some? {
        HourTakes(h.value, front, o, day, intervalMs);
      } else {
        HourNew(h.value, front, o, day, intervalMs);
      }
    }
  }

  lemma {:induction false} HourTakes(hours: seq<Bucket>, front: seq<Observation>, o: Observation, day: int,
      intervalMs: int)
    requires intervalMs > 0 && OneDay(front + [o], day) && HoursOf(hours, front, day)
    requires Prior(LastBucket(hours), o.observedAt, Hourly).Some?
    ensures var b := Apply(LastBucket(hours), o, Hourly, intervalMs);
            var s := StepAll(MergeAll(hours), o.metrics, o.bootSessionId, o.observedAt);
            && (b.None? ==> s.None?)
            && (b.Some? ==>
                 && MergeAll(hours[..|hours| - 1] + [b.value]) == s
                 && HoursOf(hours[..|hours| - 1] + [b.value], front + [o], day))
  {
    hide StepAll, Between, MergeAll, BucketState, Apply, HourChain;
    TakenBefore(hours, front, o, day);
    var last := hours[|hours| - 1];
    ApplyContinues(last, o, Hourly, last.firstAt, last.lastAt, intervalMs);
    var b := Apply(LastBucket(hours), o, Hourly, intervalMs);
    if b.Some? {
      ContinueHour(hours, b.value, o, front[0].device, day);
      StepsBetween(BucketState(last), o.metrics, o.bootSessionId, last.firstAt, o.observedAt);
      HourContinues(hours, front, o, b.value, day, intervalMs);
    } else {
      RefusedByHour(hours, o, front[0].device, day);
    }
  }

  lemma {:induction false} TakenBefore(hours: seq<Bucket>, front: seq<Observation>, o: Observation, day: int)
    requires OneDay(front + [o], day) && HoursOf(hours, front, day)
    requires Prior(LastBucket(hours), o.observedAt, Hourly).Some?
    ensures |hours| > 0 && |front| > 0
    ensures var last := hours[|hours| - 1];
            && last.firstAt <= last.lastAt < o.observedAt && last.startAt == BucketStart(o.observedAt, Hourly)
            && Between(BucketState(last), last.firstAt, last.lastAt)
            && Between(BucketState(last), last.firstAt, o.observedAt)
  {
    hide Between, BucketState;
    var last := hours[|hours| - 1];
    assert IsHour(last, day);
    assert (front + [o])[|front|] == o && (front + [o])[|front| - 1] == front[|front| - 1];
    BetweenWiden(BucketState(last), last.firstAt, last.lastAt, o.observedAt);
  }

  lemma {:induction false} HourNew(hours: seq<Bucket>, front: seq<Observation>, o: Observation, day: int,
      intervalMs: int)
    requires intervalMs > 0 && OneDay(front + [o], day) && HoursOf(hours, front, day)
    requires Prior(LastBucket(hours), o.observedAt, Hourly).None?
    ensures var b := Apply(LastBucket(hours), o, Hourly, intervalMs);
            var s := StepAll(MergeAll(hours), o.metrics, o.bootSessionId, o.observedAt);
            && (b.None? ==> s.None?)
            && (b.Some? ==> MergeAll(hours + [b.value]) == s && HoursOf(hours + [b.value], front + [o], day))
  {
    hide StepAll, Between, Merge, IsHour;
    var at := o.observedAt;
    ApplyOpens(LastBucket(hours), o, Hourly, intervalMs);
    EmptyBetween(at);
    BetweenWiden(EmptyState(), at, at - 1, at);
    StepsBetween(EmptyState(), o.metrics, o.bootSessionId, at, at);
    var b := Apply(LastBucket(hours), o, Hourly, intervalMs);
    if b.Some? {
      HourOpens(hours, front, o, b.value, day, intervalMs);
      assert (hours + [b.value])[..|hours|] == hours;
    }
    HoursBefore(hours, front, o, day);
    if MergeAll(hours).Some? {
      OpenHour(MergeAll(hours).value, if b.Some? then Some(BucketState(b.value)) else None, o,
               if |hours| == 0 then at else hours[0].firstAt);
    } else {
      StepAllNone(o.metrics, o.bootSessionId, at);
    }
  }

  lemma {:induction false} HoursBefore(hours: seq<Bucket>, front: seq<Observation>, o: Observation, day: int)
    requires OneDay(front + [o], day) && HoursOf(hours, front, day)
    ensures MergeAll(hours).Some? ==>
              Between(MergeAll(hours).value, if |hours| == 0 then o.observedAt else hours[0].firstAt, o.observedAt - 1)
  {
    hide Between, Merge, IsHour;
    if |hours| == 0 {
      EmptyBetween(o.observedAt);
    } else {
      assert (front + [o])[|front|] == o && (front + [o])[|front| - 1] == front[|front| - 1];
      MergeAllBetween(hours, front[0].device, day);
      if MergeAll(hours).Some? {
        BetweenWiden(MergeAll(hours).value, hours[0].firstAt, hours[|hours| - 1].lastAt, o.observedAt - 1);
      }
    }
  }

  // ---------- the day from its hours ----------

  lemma {:induction false} AllInDay(hours: seq<Bucket>, device: Device, day: int)
    requires HourChain(hours, device, day)
    ensures InDay(hours, day) == hours
  {
    if |hours| > 0 {
      AllInDay(hours[..|hours| - 1], device, day);
      assert IsHour(hours[|hours| - 1], day);
    }
  }

  lemma {:induction false} DayEnds(hours: seq<Bucket>, device: Device, day: int)
    requires HourChain(hours, device, day) && |hours| > 0
    ensures EarliestAt(hours) == hours[0].firstAt && LatestAt(hours) == hours[|hours| - 1].lastAt
  {
    if |hours| > 1 {
      DayEnds(hours[..|hours| - 1], device, day);
      assert IsHour(hours[0], day) && IsHour(hours[|hours| - 1], day) && IsHour(hours[|hours| - 2], day);
    }
  }

  lemma {:induction false} SortedCounters(s: State, lo: int, hi: int)
    requires Between(s, lo, hi)
    ensures SortAll(s.counters) == s.counters
  {
    forall n | n in s.counters
      ensures StableSort.Sort(s.counters[n], FirstTime()) == s.counters[n]
    {
      StableSort.SortOfSorted(s.counters[n], FirstTime());
    }
  }

  // Everything but the missing counts of the single gauges.
  ghost predicate SameDay(a: Bucket, b: Bucket) {
    a.(metrics := map[]) == b.(metrics := map[]) && Cores(a.metrics) == Cores(b.metrics)
  }

  lemma {:induction false} DayOfHours(hours: seq<Bucket>, obs: seq<Observation>, day: int, intervalMs: int)
    requires intervalMs > 0 && OneDay(obs, day) && |obs| > 0 && HoursOf(hours, obs, day)
    requires MergeAll(hours) == StateFold(obs)
    ensures Summarize(hours, day, intervalMs)
         == if StateFold(obs).None? then None
            else Some(Some(MakeBucket(
                   obs[0].device, Daily, day, obs[0].observedAt, obs[|obs| - 1].observedAt, |obs|, intervalMs,
                   CountMissing(StateFold(obs).value.gauges,
                                ExpectedSamples(obs[0].observedAt, obs[|obs| - 1].observedAt, intervalMs)),
                   StateFold(obs).value.counters)))
  {
    hide MergeAll, StateFold, Between, IsHour, BucketState;
    AllInDay(hours, obs[0].device, day);
    DayEnds(hours, obs[0].device, day);
    StableSort.SortOfSorted(hours, StartTime());
    StateFoldBetween(obs, day);
    if StateFold(obs).Some? {
      SortedCounters(StateFold(obs).value, obs[0].observedAt, obs[|obs| - 1].observedAt);
    }
  }

  /**
   The roll-up law. For observations of one device and one UTC day in strictly increasing time
   order, whatever their metrics, units and sources: summarising the hourly buckets throws exactly
   when folding the day directly throws, and otherwise gives the same daily bucket, except for the
   missing counts of the single gauges.
   */
  lemma {:induction false} RollUp(obs: seq<Observation>, day: int, intervalMs: int)
    requires intervalMs > 0 && OneDay(obs, day) && |obs| > 0
    ensures var hours, direct := HourlyFold(obs, intervalMs), BucketFold(obs, Daily, intervalMs);
            && (direct.None? <==> hours.None? || Summarize(hours.value, day, intervalMs).None?)
            && (direct.Some? ==>
                 && direct.value.Some? && Summarize(hours.value, day, intervalMs).value.Some?
                 && SameDay(Summarize(hours.value, day, intervalMs).value.value, direct.value.value))
  {
    hide MergeAll, StateFold, HourlyFold, BucketFold, Summarize, HoursOf;
    HourlyFoldIsState(obs, day, intervalMs);
    DailyFoldIsState(obs, day, intervalMs);
    var hours := HourlyFold(obs, intervalMs);
    if hours.Some? {
      DayOfHours(hours.value, obs, day, intervalMs);
    }
  }

  // ---------- missing counts of the gauges ----------

  // The times of the readings of one gauge.
  function GaugeTimesIn(ms: seq<Metric>, at: int, name: string): seq<int> {
    if |ms| == 0 then []
    else
      var m := ms[|ms| - 1];
      GaugeTimesIn(ms[..|ms| - 1], at, name)
      + if m.name == name && m.value.Some? && m.semantics.Gauge? then [at] else []
  }

  function GaugeTimes(obs: seq<Observation>, name: string): seq<int> {
    if |obs| == 0 then []
    else
      var o := obs[|obs| - 1];
      GaugeTimes(obs[..|obs| - 1], name) + GaugeTimesIn(o.metrics, o.observedAt, name)
  }

  // The state has the gauge when it was read, with the number of its readings and the time of the last one.
  ghost predicate Reads(s: State, name: string, times: seq<int>) {
    && (name in s.gauges <==> |times| > 0)
    && (name in s.gauges ==> s.gauges[name].sampleCount == |times| && s.gauges[name].lastAt == times[|times| - 1])
  }

  ghost predicate NotAfter(times: seq<int>, at: int) { forall i :: 0 <= i < |times| ==> times[i] <= at }

  lemma {:induction false} StepReads(s: State, m: Metric, boot: string, at: int, name: string, times: seq<int>)
    requires Reads(s, name, times) && NotAfter(times, at) && Step(s, m, boot, at).Some?
    ensures var more := if m.name == name && m.value.Some? && m.semantics.Gauge? then [at] else [];
            Reads(Step(s, m, boot, at).value, name, times + more) && NotAfter(times + more, at)
  {
  }

  lemma {:induction false} StepsRead(s: State, ms: seq<Metric>, boot: string, at: int, name: string, times: seq<int>)
    requires Reads(s, name, times) && NotAfter(times, at) && StepAll(Some(s), ms, boot, at).Some?
    ensures Reads(StepAll(Some(s), ms, boot, at).value, name, times + GaugeTimesIn(ms, at, name))
    ensures NotAfter(times + GaugeTimesIn(ms, at, name), at)
  {
    hide Step, Reads, NotAfter;
    if |ms| == 0 {
      assert times + [] == times;
    } else {
      var front, m := ms[..|ms| - 1], ms[|ms| - 1];
      StepsRead(s, front, boot, at, name, times);
      StepReads(StepAll(Some(s), front, boot, at).value, m, boot, at, name, times + GaugeTimesIn(front, at, name));
      var more := if m.name == name && m.value.Some? && m.semantics.Gauge? then [at] else [];
      assert times + (GaugeTimesIn(front, at, name) + more) == times + GaugeTimesIn(front, at, name) + more;
    }
  }

  lemma {:induction false} StateReads(obs: seq<Observation>, name: string)
    requires StateFold(obs).Some? && forall i, j :: 0 <= i < j < |obs| ==> obs[i].observedAt < obs[j].observedAt
    ensures Reads(StateFold(obs).value, name, GaugeTimes(obs, name))
    ensures |obs| > 0 ==> NotAfter(GaugeTimes(obs, name), obs[|obs| - 1].observedAt)
  {
    hide Step, StepAll, GaugeTimesIn;
    if |obs| > 0 {
      var front, o := obs[..|obs| - 1], obs[|obs| - 1];
      StepAllNone(o.metrics, o.bootSessionId, o.observedAt);
      StateReads(front, name);
      StepsRead(StateFold(front).value, o.metrics, o.bootSessionId, o.observedAt, name, GaugeTimes(front, name));
    }
  }

  /**
   The exception, exactly. A gauge's missing count looks only as far as the gauge's own last reading
   when the day is folded directly, and to the end of the day when its hours are summarised. The two
   agree if and only if no sample more is expected at the day's last observation than at the gauge's
   last reading, or the gauge was read as often as the day expects.
   */
  lemma {:induction false} MissingCounts(obs: seq<Observation>, day: int, intervalMs: int, name: string)
    requires intervalMs > 0 && OneDay(obs, day) && |obs| > 0 && BucketFold(obs, Daily, intervalMs).Some?
    requires |GaugeTimes(obs, name)| > 0
    ensures HourlyFold(obs, intervalMs).Some? && Summarize(HourlyFold(obs, intervalMs).value, day, intervalMs).Some?
    ensures Summarize(HourlyFold(obs, intervalMs).value, day, intervalMs).value.Some?
    ensures var direct := BucketFold(obs, Daily, intervalMs).value.value;
            var rolledUp := Summarize(HourlyFold(obs, intervalMs).value, day, intervalMs).value.value;
            var times := GaugeTimes(obs, name);
            var atLastReading := ExpectedSamples(obs[0].observedAt, times[|times| - 1], intervalMs);
            var atLastObservation := ExpectedSamples(obs[0].observedAt, obs[|obs| - 1].observedAt, intervalMs);
            && name in direct.metrics && name in rolledUp.metrics
            && direct.metrics[name].missingSampleCount == Missing(atLastReading, |times|)
            && rolledUp.metrics[name].missingSampleCount == Missing(atLastObservation, |times|)
            && (rolledUp.metrics[name].missingSampleCount == direct.metrics[name].missingSampleCount
                <==> atLastObservation == atLastReading || atLastObservation <= |times|)
  {
    hide MergeAll, StateFold, HourlyFold, BucketFold, Summarize, HoursOf, GaugeTimes;
    HourlyFoldIsState(obs, day, intervalMs);
    DailyFoldIsState(obs, day, intervalMs);
    DayOfHours(HourlyFold(obs, intervalMs).value, obs, day, intervalMs);
    StateReads(obs, name);
    var times := GaugeTimes(obs, name);
    assert name in StateFold(obs).value.gauges;
    ExpectedGrows(obs[0].observedAt, times[|times| - 1], obs[|obs| - 1].observedAt, intervalMs);
  }

  lemma {:induction false} ExpectedGrows(firstAt: int, at: int, lastAt: int, intervalMs: int)
    requires intervalMs > 0 && at <= lastAt
    ensures ExpectedSamples(firstAt, at, intervalMs) <= ExpectedSamples(firstAt, lastAt, intervalMs)
  {
    DivisionGrows(at - firstAt, lastAt - firstAt, intervalMs);
  }

  lemma {:induction false} DivisionGrows(x: int, y: int, d: int)
    requires x <= y && d > 0
    ensures x / d <= y / d
  {
    var gap := y / d - x / d;
    assert d * gap == (y - y % d) - (x - x % d) > -d;
  }

  const SENSOR := Device("t", "s", "d", "p")

  // The gauge is read in the first of two observations, one interval apart.
  function ReadOnce(): seq<Observation> {
    [Observation(SENSOR, 0, "boot", [Metric("heap", Some(1.0), "B", Gauge, "sdk")]),
     Observation(SENSOR, 60000, "boot", [])]
  }

  // Folded directly the day misses no reading of the gauge, summarised from its hours it misses one.
  lemma {:induction false} CountsDiffer()
    ensures var direct, hours := BucketFold(ReadOnce(), Daily, 60000), HourlyFold(ReadOnce(), 60000);
            && direct.Some? && direct.value.Some? && "heap" in direct.value.value.metrics
            && direct.value.value.metrics["heap"].missingSampleCount == 0
            && hours.Some? && var rolledUp := Summarize(hours.value, 0, 60000);
            && rolledUp.Some? && rolledUp.value.Some? && "heap" in rolledUp.value.value.metrics
            && rolledUp.value.value.metrics["heap"].missingSampleCount == 1
  {
    hide BucketFold, HourlyFold, Summarize, StateFold;
    var obs := ReadOnce();
    ReadOnceFolds();
    DailyFoldIsState(obs, 0, 60000);
    assert obs[..1][..0] == [] && obs[..2] == obs && obs[0].metrics[..0] == [];
    assert GaugeTimesIn(obs[0].metrics, 0, "heap") == [0];
    assert GaugeTimes(obs[..1], "heap") == [0];
    assert GaugeTimes(obs, "heap") == [0];
    MissingCounts(obs, 0, 60000, "heap");
  }

  lemma {:induction false} ReadOnceFolds()
    ensures StateFold(ReadOnce()).Some?
  {
    var obs := ReadOnce();
    var ms := obs[0].metrics;
    assert obs[..1][..0] == [] && ms[..0] == [];
    assert Step(EmptyState(), ms[0], "boot", 0).Some?;
    assert StepAll(Some(EmptyState()), ms[..0], "boot", 0) == Some(EmptyState());
    assert StateFold(obs[..1]).Some?;
  }
}
