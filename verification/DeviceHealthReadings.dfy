/**
 What a device health bucket says of the observations folded into it, whatever the order in which
 they arrive: its counts and times, and for every metric the readings behind its summaries.
 */
module DeviceHealthReadings {
  import opened Wrappers
  import opened DeviceHealthHistory
  import opened DeviceHealthLaws
  import opened RecordMerge
  import StableSort

  // ---------- readings ----------

  datatype Reading = Reading(boot: string, at: int, value: real, unit: string, source: string)

  // The readings of one metric, in order of arrival.
  function ReadingsIn(ms: seq<Metric>, boot: string, at: int, name: string, semantics: Semantics): seq<Reading> {
    if |ms| == 0 then []
    else
      var m := ms[|ms| - 1];
      ReadingsIn(ms[..|ms| - 1], boot, at, name, semantics)
      + if m.name == name && m.semantics == semantics && m.value.Some?
        then [Reading(boot, at, m.value.value, m.unit, m.source)] else []
  }

  function ReadingsOf(obs: seq<Observation>, name: string, semantics: Semantics): seq<Reading> {
    if |obs| == 0 then []
    else
      var o := obs[|obs| - 1];
      ReadingsOf(obs[..|obs| - 1], name, semantics)
      + ReadingsIn(o.metrics, o.bootSessionId, o.observedAt, name, semantics)
  }

  function Own(rs: seq<Reading>, boot: string): seq<Reading> {
    if |rs| == 0 then []
    else Own(rs[..|rs| - 1], boot) + if rs[|rs| - 1].boot == boot then [rs[|rs| - 1]] else []
  }

  function Total(rs: seq<Reading>): real {
    if |rs| == 0 then 0.0 else Total(rs[..|rs| - 1]) + rs[|rs| - 1].value
  }

  // The earliest reading; of several the one that arrived first.
  ghost predicate Earliest(rs: seq<Reading>, i: int) {
    0 <= i < |rs| && forall j :: 0 <= j < |rs| ==> rs[i].at <= rs[j].at && (j < i ==> rs[i].at < rs[j].at)
  }

  // The latest reading; of several the one that arrived last.
  ghost predicate Newest(rs: seq<Reading>, i: int) {
    0 <= i < |rs| && forall j :: 0 <= j < |rs| ==> rs[j].at <= rs[i].at && (i < j ==> rs[j].at < rs[i].at)
  }

  ghost predicate OneOrigin(rs: seq<Reading>, unit: string, source: string) {
    forall i :: 0 <= i < |rs| ==> rs[i].unit == unit && rs[i].source == source
  }

  lemma {:induction false} EarliestMore(rs: seq<Reading>, i: int, r: Reading)
    requires Earliest(rs, i)
    ensures Earliest(rs + [r], if r.at < rs[i].at then |rs| else i)
  {
  }

  lemma {:induction false} NewestMore(rs: seq<Reading>, i: int, r: Reading)
    requires Newest(rs, i)
    ensures Newest(rs + [r], if rs[i].at <= r.at then |rs| else i)
  {
  }

  lemma {:induction false} NewestOnce(rs: seq<Reading>, i: int, j: int)
    requires Newest(rs, i) && Newest(rs, j)
    ensures i == j
  {
    assert rs[i].at <= rs[j].at <= rs[i].at;
  }

  // ---------- gauges ----------

  ghost predicate Spans(firstValue: real, firstAt: int, lastValue: real, lastAt: int, rs: seq<Reading>) {
    && (exists i :: 0 <= i < |rs| && Earliest(rs, i) && firstValue == rs[i].value && firstAt == rs[i].at)
    && (exists i :: 0 <= i < |rs| && Newest(rs, i) && lastValue == rs[i].value && lastAt == rs[i].at)
  }

  ghost predicate Lowest(minimum: real, rs: seq<Reading>) {
    && (exists i :: 0 <= i < |rs| && rs[i].value == minimum)
    && (forall i :: 0 <= i < |rs| ==> minimum <= rs[i].value)
  }

  ghost predicate Highest(maximum: real, rs: seq<Reading>) {
    && (exists i :: 0 <= i < |rs| && rs[i].value == maximum)
    && (forall i :: 0 <= i < |rs| ==> rs[i].value <= maximum)
  }

  ghost predicate GaugeTells(c: GaugeCore, rs: seq<Reading>) {
    && c.sampleCount == |rs| && c.sum == Total(rs) && OneOrigin(rs, c.unit, c.source)
    && Lowest(c.minimum, rs) && Highest(c.maximum, rs)
    && Spans(c.firstValue, c.firstAt, c.lastValue, c.lastAt, rs)
  }

  // The metric reports the reading.
  predicate Reports(m: Metric, r: Reading) { m.value == Some(r.value) && m.unit == r.unit && m.source == r.source }

  lemma {:induction false} OneSpans(r: Reading)
    ensures Spans(r.value, r.at, r.value, r.at, [r])
  {
    assert Earliest([r], 0) && Newest([r], 0);
  }

  lemma {:induction false} GaugeFirst(m: Metric, r: Reading)
    requires Reports(m, r)
    ensures GaugeTells(FirstCore(m, r.at), [r])
  {
    hide Spans;
    OneSpans(r);
    var rs := [r];
    assert rs[..0] == [] && rs[0].value == r.value && Total(rs) == r.value;
  }

  lemma {:induction false} LowestMore(minimum: real, rs: seq<Reading>, r: Reading)
    requires Lowest(minimum, rs)
    ensures Lowest(RMin(minimum, r.value), rs + [r])
  {
    var all := rs + [r];
    var i :| 0 <= i < |rs| && rs[i].value == minimum;
    assert all[i].value == minimum && all[|rs|].value == r.value;
  }

  lemma {:induction false} HighestMore(maximum: real, rs: seq<Reading>, r: Reading)
    requires Highest(maximum, rs)
    ensures Highest(RMax(maximum, r.value), rs + [r])
  {
    var all := rs + [r];
    var i :| 0 <= i < |rs| && rs[i].value == maximum;
    assert all[i].value == maximum && all[|rs|].value == r.value;
  }

  lemma {:induction false} SpansMore(firstValue: real, firstAt: int, lastValue: real, lastAt: int, rs: seq<Reading>,
      r: Reading)
    requires Spans(firstValue, firstAt, lastValue, lastAt, rs)
    ensures Spans(if r.at < firstAt then r.value else firstValue, if r.at < firstAt then r.at else firstAt,
                  if lastAt <= r.at then r.value else lastValue, if lastAt <= r.at then r.at else lastAt, rs + [r])
  {
    hide Earliest, Newest;
    var all := rs + [r];
    var i :| 0 <= i < |rs| && Earliest(rs, i) && firstValue == rs[i].value && firstAt == rs[i].at;
    var j :| 0 <= j < |rs| && Newest(rs, j) && lastValue == rs[j].value && lastAt == rs[j].at;
    EarliestMore(rs, i, r);
    NewestMore(rs, j, r);
    assert all[i] == rs[i] && all[j] == rs[j] && all[|rs|] == r;
  }

  lemma {:induction false} GaugeMore(c: GaugeCore, rs: seq<Reading>, m: Metric, r: Reading)
    requires GaugeTells(c, rs) && Reports(m, r) && c.unit == m.unit && c.source == m.source
    ensures GaugeTells(UpdateCore(c, m, r.at), rs + [r])
  {
    hide Spans, Lowest, Highest, RMin, RMax, Total, OneOrigin;
    LowestMore(c.minimum, rs, r);
    HighestMore(c.maximum, rs, r);
    SpansMore(c.firstValue, c.firstAt, c.lastValue, c.lastAt, rs, r);
    TotalMore(rs, r, c.unit, c.source);
  }

  lemma {:induction false} TotalMore(rs: seq<Reading>, r: Reading, unit: string, source: string)
    ensures Total(rs + [r]) == Total(rs) + r.value
    ensures OneOrigin(rs, unit, source) && r.unit == unit && r.source == source ==> OneOrigin(rs + [r], unit, source)
  {
    assert (rs + [r])[..|rs|] == rs;
  }

  // ---------- counters ----------

  // The readings arrived in time order.
  ghost predicate Ordered(rs: seq<Reading>) { forall i, j :: 0 <= i < j < |rs| ==> rs[i].at <= rs[j].at }

  // Reading i arrived as the newest and is lower than the newest before it, or arrived as the earliest
  // and is higher than that one.
  ghost predicate ResetAt(rs: seq<Reading>, i: int) {
    0 < i < |rs| && exists j :: Newest(rs[..i], j) && ResetAgainst(rs, i, j)
  }

  ghost predicate ResetAgainst(rs: seq<Reading>, i: int, j: int)
    requires 0 <= j < i < |rs|
  {
    || (rs[j].at <= rs[i].at && rs[i].value < rs[j].value)
    || ((forall k :: 0 <= k < i ==> rs[i].at < rs[k].at) && rs[j].value < rs[i].value)
  }

  ghost predicate SomeReset(rs: seq<Reading>) { exists i :: ResetAt(rs, i) }

  ghost predicate CounterTells(c: CounterSummary, rs: seq<Reading>) {
    && OneOrigin(rs, c.unit, c.source)
    && Spans(c.firstValue, c.firstAt, c.lastValue, c.lastAt, rs)
    && c.orderingComplete == Ordered(rs) && c.resetObserved == SomeReset(rs)
    && c.delta == (if Ordered(rs) && !SomeReset(rs) then Some(c.lastValue - c.firstValue) else None)
  }

  lemma {:induction false} OrderedMore(rs: seq<Reading>, j: int, r: Reading)
    requires Newest(rs, j)
    ensures Ordered(rs + [r]) == (Ordered(rs) && rs[j].at <= r.at)
  {
    var all := rs + [r];
    assert all[j] == rs[j] && all[|rs|] == r;
    if Ordered(all) {
      assert forall i, k :: 0 <= i < k < |rs| ==> all[i].at <= all[k].at;
      assert forall i :: 0 <= i < |rs| ==> all[i] == rs[i];
    }
  }

  lemma {:induction false} ResetBefore(rs: seq<Reading>, r: Reading, i: int)
    requires i < |rs|
    ensures ResetAt(rs + [r], i) == ResetAt(rs, i)
  {
    var all := rs + [r];
    if 0 < i {
      assert all[..i] == rs[..i];
      assert forall k :: 0 <= k <= i ==> all[k] == rs[k];
      forall j | Newest(rs[..i], j)
        ensures ResetAgainst(all, i, j) == ResetAgainst(rs, i, j)
      {
      }
    }
  }

  lemma {:induction false} ResetNow(rs: seq<Reading>, first: int, last: int, r: Reading)
    requires Earliest(rs, first) && Newest(rs, last)
    ensures ResetAt(rs + [r], |rs|)
        <==> || (rs[last].at <= r.at && r.value < rs[last].value)
             || (r.at < rs[first].at && rs[last].value < r.value)
  {
    var all, n := rs + [r], |rs|;
    assert all[..n] == rs && all[n] == r && all[last] == rs[last] && all[first] == rs[first];
    assert forall k :: 0 <= k < n ==> all[k] == rs[k];
    assert (forall k :: 0 <= k < n ==> r.at < all[k].at) <==> r.at < rs[first].at;
    if ResetAt(all, n) {
      var j :| Newest(all[..n], j) && ResetAgainst(all, n, j);
      NewestOnce(rs, j, last);
    }
    if ResetAgainst(all, n, last) {
      assert Newest(all[..n], last);
    }
  }

  lemma {:induction false} SomeResetMore(rs: seq<Reading>, first: int, last: int, r: Reading)
    requires Earliest(rs, first) && Newest(rs, last)
    ensures SomeReset(rs + [r])
        <==> || SomeReset(rs) || (rs[last].at <= r.at && r.value < rs[last].value)
             || (r.at < rs[first].at && rs[last].value < r.value)
  {
    hide ResetAt;
    ResetNow(rs, first, last, r);
    forall i | i < |rs|
      ensures ResetAt(rs + [r], i) == ResetAt(rs, i)
    {
      ResetBefore(rs, r, i);
    }
    forall i | |rs| <= i
      ensures !ResetAt(rs, i) && (|rs| < i ==> !ResetAt(rs + [r], i))
    {
      NoResetBeyond(rs, i);
      NoResetBeyond(rs + [r], i);
    }
  }

  lemma {:induction false} NoResetBeyond(rs: seq<Reading>, i: int)
    ensures |rs| <= i ==> !ResetAt(rs, i)
  {
  }

  lemma {:induction false} NoResetAtFirst(r: Reading)
    ensures !SomeReset([r]) && Ordered([r])
  {
  }

  lemma {:induction false} CounterFirst(m: Metric, r: Reading)
    requires Reports(m, r)
    ensures CounterTells(FirstCounter(r.boot, m, r.at), [r])
  {
    hide Spans, SomeReset, Ordered;
    OneSpans(r);
    NoResetAtFirst(r);
  }

  lemma {:induction false} CounterMore(c: CounterSummary, rs: seq<Reading>, r: Reading)
    requires CounterTells(c, rs) && r.unit == c.unit && r.source == c.source
    ensures CounterTells(UpdateCounter(c, r.value, r.at), rs + [r])
  {
    hide Earliest, Newest, SomeReset, Ordered;
    var i :| 0 <= i < |rs| && Earliest(rs, i) && c.firstValue == rs[i].value && c.firstAt == rs[i].at;
    var j :| 0 <= j < |rs| && Newest(rs, j) && c.lastValue == rs[j].value && c.lastAt == rs[j].at;
    SpansMore(c.firstValue, c.firstAt, c.lastValue, c.lastAt, rs, r);
    OrderedMore(rs, j, r);
    SomeResetMore(rs, i, j, r);
    FirstNotAfterLast(rs, i, j);
    SpansOnly(c, rs, r);
  }

  lemma {:induction false} FirstNotAfterLast(rs: seq<Reading>, i: int, j: int)
    requires Earliest(rs, i) && Newest(rs, j)
    ensures rs[i].at <= rs[j].at
  {
  }

  // The times and values of an updated summary, whichever branch is taken.
  lemma {:induction false} SpansOnly(c: CounterSummary, rs: seq<Reading>, r: Reading)
    requires c.firstAt <= c.lastAt
    ensures var d := UpdateCounter(c, r.value, r.at);
            && d.firstValue == (if r.at < c.firstAt then r.value else c.firstValue)
            && d.firstAt == (if r.at < c.firstAt then r.at else c.firstAt)
            && d.lastValue == (if c.lastAt <= r.at then r.value else c.lastValue)
            && d.lastAt == (if c.lastAt <= r.at then r.at else c.lastAt)
  {
  }

  // ---------- the sessions of a counter ----------

  // One summary for every boot session that was read, each telling its session's readings.
  ghost predicate SessionsTell(series: seq<CounterSummary>, rs: seq<Reading>) {
    && (forall i, j :: 0 <= i < j < |series| ==> series[i].bootSessionId != series[j].bootSessionId)
    && (forall i :: 0 <= i < |series| ==> SessionTells(series[i], rs))
    && (forall k :: 0 <= k < |rs| ==> Named(series, rs[k].boot))
  }

  ghost predicate SessionTells(c: CounterSummary, rs: seq<Reading>) {
    |Own(rs, c.bootSessionId)| > 0 && CounterTells(c, Own(rs, c.bootSessionId))
  }

  ghost predicate Named(series: seq<CounterSummary>, boot: string) {
    exists c :: c in series && c.bootSessionId == boot
  }

  ghost predicate FirstTimesSorted(series: seq<CounterSummary>) {
    forall i, j :: 0 <= i < j < |series| ==> series[i].firstAt <= series[j].firstAt
  }

  lemma {:induction false} OwnMore(rs: seq<Reading>, r: Reading, boot: string)
    ensures Own(rs + [r], boot) == if r.boot == boot then Own(rs, boot) + [r] else Own(rs, boot)
  {
    assert (rs + [r])[..|rs|] == rs;
    assert Own(rs, boot) + [] == Own(rs, boot);
  }

  lemma {:induction false} OwnIsNamed(rs: seq<Reading>, boot: string)
    ensures |Own(rs, boot)| > 0 ==> exists k :: 0 <= k < |rs| && rs[k].boot == boot
  {
    if |rs| > 0 {
      OwnIsNamed(rs[..|rs| - 1], boot);
    }
  }

  lemma {:induction false} UnnamedOwnsNone(series: seq<CounterSummary>, rs: seq<Reading>, boot: string)
    requires SessionsTell(series, rs) && FindBoot(series, boot) == |series|
    ensures Own(rs, boot) == []
  {
    hide SessionTells, Own;
    OwnIsNamed(rs, boot);
    forall k | 0 <= k < |rs|
      ensures rs[k].boot != boot
    {
      assert Named(series, rs[k].boot);
    }
  }

  lemma {:induction false} OtherTells(c: CounterSummary, rs: seq<Reading>, r: Reading)
    requires SessionTells(c, rs) && c.bootSessionId != r.boot
    ensures SessionTells(c, rs + [r])
  {
    hide CounterTells;
    OwnMore(rs, r, c.bootSessionId);
  }

  lemma {:induction false} PlainStepTells(series: seq<CounterSummary>, rs: seq<Reading>, m: Metric, r: Reading)
    requires SessionsTell(series, rs) && Reports(m, r) && PlainStep(series, r.boot, m, r.at).Some?
    ensures SessionsTell(PlainStep(series, r.boot, m, r.at).value, rs + [r])
  {
    hide Own, CounterTells, UpdateCounter, FirstCounter, SessionTells;
    var i, next := FindBoot(series, r.boot), PlainStep(series, r.boot, m, r.at).value;
    OwnMore(rs, r, r.boot);
    BootKept(series, m, r);
    if i == |series| {
      UnnamedOwnsNone(series, rs, r.boot);
      assert [] + [r] == [r];
      CounterFirst(m, r);
      NewSessionTells(next[i], rs, r);
    } else {
      KnownSessionTells(series[i], rs, r);
    }
    forall j | 0 <= j < |series| && j != i
      ensures SessionTells(next[j], rs + [r])
    {
      OtherTells(series[j], rs, r);
    }
    NamesKept(series, next, rs, r);
  }

  lemma {:induction false} NewSessionTells(c: CounterSummary, rs: seq<Reading>, r: Reading)
    requires c.bootSessionId == r.boot && Own(rs + [r], r.boot) == [r] && CounterTells(c, [r])
    ensures SessionTells(c, rs + [r])
  {
    hide CounterTells, Own;
  }

  lemma {:induction false} KnownSessionTells(c: CounterSummary, rs: seq<Reading>, r: Reading)
    requires c.bootSessionId == r.boot && SessionTells(c, rs) && r.unit == c.unit && r.source == c.source
    ensures SessionTells(UpdateCounter(c, r.value, r.at), rs + [r])
  {
    hide CounterTells, Own;
    OwnMore(rs, r, r.boot);
    CounterMore(c, Own(rs, r.boot), r);
  }

  // The step keeps the session of every summary and knows the one that was read.
  lemma {:induction false} BootKept(series: seq<CounterSummary>, m: Metric, r: Reading)
    requires m.value.Some? && PlainStep(series, r.boot, m, r.at).Some?
    ensures var next := PlainStep(series, r.boot, m, r.at).value;
            && |series| <= |next| && FindBoot(series, r.boot) < |next|
            && next[FindBoot(series, r.boot)].bootSessionId == r.boot
            && forall j :: 0 <= j < |series| ==> next[j].bootSessionId == series[j].bootSessionId
  {
  }

  lemma {:induction false} NamesKept(series: seq<CounterSummary>, next: seq<CounterSummary>, rs: seq<Reading>,
      r: Reading)
    requires (forall k :: 0 <= k < |rs| ==> Named(series, rs[k].boot)) && |series| <= |next|
    requires forall j :: 0 <= j < |series| ==> next[j].bootSessionId == series[j].bootSessionId
    requires exists j :: 0 <= j < |next| && next[j].bootSessionId == r.boot
    ensures forall k :: 0 <= k < |rs + [r]| ==> Named(next, (rs + [r])[k].boot)
  {
    forall k | 0 <= k < |rs + [r]|
      ensures Named(next, (rs + [r])[k].boot)
    {
      if k < |rs| {
        assert Named(series, rs[k].boot);
        var c :| c in series && c.bootSessionId == rs[k].boot;
        var j :| 0 <= j < |series| && series[j] == c;
        assert next[j] in next;
      } else {
        var j :| 0 <= j < |next| && next[j].bootSessionId == r.boot;
        assert next[j] in next;
      }
    }
  }

  ghost predicate DistinctBoots(series: seq<CounterSummary>) {
    forall i, j :: 0 <= i < j < |series| ==> series[i].bootSessionId != series[j].bootSessionId
  }

  lemma {:induction false} InsertKeepsDistinct(series: seq<CounterSummary>, c: CounterSummary)
    requires DistinctBoots(series) && forall i :: 0 <= i < |series| ==> series[i].bootSessionId != c.bootSessionId
    ensures DistinctBoots(StableSort.Insert(series, c, FirstTime()))
  {
    if |series| > 0 && !(FirstTime()(series[|series| - 1]) <= FirstTime()(c)) {
      var front, last := series[..|series| - 1], series[|series| - 1];
      InsertKeepsDistinct(front, c);
      var r := StableSort.Insert(front, c, FirstTime());
      StableSort.InsertElements(front, c, FirstTime());
      forall i | 0 <= i < |r|
        ensures r[i].bootSessionId != last.bootSessionId
      {
        assert r[i] in multiset(r);
        assert r[i] in front || r[i] == c;
      }
    }
  }

  lemma {:induction false} SortKeepsDistinct(series: seq<CounterSummary>)
    requires DistinctBoots(series)
    ensures DistinctBoots(StableSort.Sort(series, FirstTime()))
  {
    if |series| > 0 {
      var front, last := series[..|series| - 1], series[|series| - 1];
      SortKeepsDistinct(front);
      var sorted := StableSort.Sort(front, FirstTime());
      forall i | 0 <= i < |sorted|
        ensures sorted[i].bootSessionId != last.bootSessionId
      {
        StableSort.SortMembers(front, FirstTime(), sorted[i]);
      }
      InsertKeepsDistinct(sorted, last);
    }
  }

  lemma {:induction false} SortTells(series: seq<CounterSummary>, rs: seq<Reading>)
    requires SessionsTell(series, rs)
    ensures SessionsTell(StableSort.Sort(series, FirstTime()), rs)
    ensures FirstTimesSorted(StableSort.Sort(series, FirstTime()))
  {
    hide StableSort.Sort, SessionTells;
    var sorted := StableSort.Sort(series, FirstTime());
    SortKeepsDistinct(series);
    StableSort.SortIsSorted(series, FirstTime());
    forall i, j | 0 <= i < j < |sorted|
      ensures sorted[i].firstAt <= sorted[j].firstAt
    {
      assert FirstTime()(sorted[i]) <= FirstTime()(sorted[j]);
    }
    forall c
      ensures c in sorted <==> c in series
    {
      StableSort.SortMembers(series, FirstTime(), c);
    }
    forall i | 0 <= i < |sorted|
      ensures SessionTells(sorted[i], rs)
    {
      assert sorted[i] in series;
    }
    forall k | 0 <= k < |rs|
      ensures Named(sorted, rs[k].boot)
    {
      assert Named(series, rs[k].boot);
    }
  }

  // ---------- the records of a bucket ----------

  ghost predicate SeriesTells(series: seq<CounterSummary>, rs: seq<Reading>) {
    SessionsTell(series, rs) && FirstTimesSorted(series)
  }

  // What the two records say of one metric.
  ghost predicate MetricTells(s: Records, name: string, gauges: seq<Reading>, counters: seq<Reading>) {
    && (name in s.metrics <==> |gauges| > 0) && (name in s.metrics ==> GaugeTells(s.metrics[name].core, gauges))
    && (name in s.counters <==> |counters| > 0) && SeriesTells(OrEmpty(Get(s.counters, name)), counters)
  }

  lemma {:induction false} NothingTold(name: string)
    ensures MetricTells(Records(map[], map[]), name, [], [])
  {
  }

  function Told(m: Metric, boot: string, at: int, name: string, semantics: Semantics): seq<Reading> {
    if m.name == name && m.semantics == semantics && m.value.Some?
    then [Reading(boot, at, m.value.value, m.unit, m.source)] else []
  }

  lemma {:induction false} StepTells(s: Records, m: Metric, boot: string, at: int, expected: nat, name: string,
      gauges: seq<Reading>, counters: seq<Reading>)
    requires MetricTells(s, name, gauges, counters) && StepMetric(s, m, boot, at, expected).Some?
    ensures MetricTells(StepMetric(s, m, boot, at, expected).value, name,
                        gauges + Told(m, boot, at, name, Gauge), counters + Told(m, boot, at, name, Counter))
  {
    hide GaugeTells, SeriesTells, UpdateCore, FirstCore, StepSeries;
    assert gauges + [] == gauges && counters + [] == counters;
    if m.name == name && m.value.Some? {
      var r := Reading(boot, at, m.value.value, m.unit, m.source);
      if m.semantics.Gauge? {
        GaugeStepTells(CoreIn(s.metrics, name), gauges, m, r);
      } else {
        SeriesStepTells(OrEmpty(Get(s.counters, name)), counters, m, r);
      }
    }
  }

  lemma {:induction false} GaugeStepTells(c: Option<GaugeCore>, rs: seq<Reading>, m: Metric, r: Reading)
    requires (c.None? <==> rs == []) && (c.Some? ==> GaugeTells(c.value, rs)) && Reports(m, r)
    requires StepCore(c, m, r.at).Some?
    ensures GaugeTells(StepCore(c, m, r.at).value, rs + [r])
  {
    hide GaugeTells, UpdateCore, FirstCore;
    if c.None? {
      assert rs + [r] == [r];
      GaugeFirst(m, r);
    } else {
      GaugeMore(c.value, rs, m, r);
    }
  }

  lemma {:induction false} SeriesStepTells(series: seq<CounterSummary>, rs: seq<Reading>, m: Metric, r: Reading)
    requires SeriesTells(series, rs) && Reports(m, r) && StepSeries(series, r.boot, m, r.at).Some?
    ensures SeriesTells(StepSeries(series, r.boot, m, r.at).value, rs + [r])
  {
    hide SessionsTell, FirstTimesSorted, PlainStep, StableSort.Sort;
    PlainStepTells(series, rs, m, r);
    SortTells(PlainStep(series, r.boot, m, r.at).value, rs + [r]);
  }

  lemma {:induction false} StepsTell(s: Records, ms: seq<Metric>, boot: string, at: int, expected: nat, name: string,
      gauges: seq<Reading>, counters: seq<Reading>)
    requires MetricTells(s, name, gauges, counters) && StepMetrics(s, ms, boot, at, expected).Some?
    ensures MetricTells(StepMetrics(s, ms, boot, at, expected).value, name,
                        gauges + ReadingsIn(ms, boot, at, name, Gauge),
                        counters + ReadingsIn(ms, boot, at, name, Counter))
  {
    hide MetricTells, StepMetric;
    assert gauges + [] == gauges && counters + [] == counters;
    if |ms| > 0 {
      var front, m := ms[..|ms| - 1], ms[|ms| - 1];
      StepsTell(s, front, boot, at, expected, name, gauges, counters);
      var g, c := ReadingsIn(front, boot, at, name, Gauge), ReadingsIn(front, boot, at, name, Counter);
      StepTells(StepMetrics(s, front, boot, at, expected).value, m, boot, at, expected, name, gauges + g, counters + c);
      assert gauges + (g + Told(m, boot, at, name, Gauge)) == gauges + g + Told(m, boot, at, name, Gauge);
      assert counters + (c + Told(m, boot, at, name, Counter)) == counters + c + Told(m, boot, at, name, Counter);
    }
  }

  // ---------- a bucket ----------

  // Observations that fall into one bucket, in any order.
  ghost predicate OneStart(obs: seq<Observation>, g: Granularity) {
    |obs| > 0 && forall i :: 0 <= i < |obs| ==> BucketStart(obs[i].observedAt, g) == BucketStart(obs[0].observedAt, g)
  }

  lemma {:induction false} ApplyTells(previous: Option<Bucket>, o: Observation, g: Granularity, intervalMs: int,
      name: string, gauges: seq<Reading>, counters: seq<Reading>)
    requires intervalMs > 0 && Apply(previous, o, g, intervalMs).Some?
    requires MetricTells(RecordsOf(Prior(previous, o.observedAt, g)), name, gauges, counters)
    ensures var b := Apply(previous, o, g, intervalMs).value;
            MetricTells(Records(b.metrics, b.counters), name,
                        gauges + ReadingsIn(o.metrics, o.bootSessionId, o.observedAt, name, Gauge),
                        counters + ReadingsIn(o.metrics, o.bootSessionId, o.observedAt, name, Counter))
  {
    hide MetricTells, StepMetrics, ReadingsIn;
    var prior, at := Prior(previous, o.observedAt, g), o.observedAt;
    StepsTell(RecordsOf(prior), o.metrics, o.bootSessionId, at,
              ExpectedSamples(FirstAt(prior, at), LastAt(prior, at), intervalMs), name, gauges, counters);
  }

  /**
   Whatever the order of arrival, a bucket that was folded holds for every gauge the number, sum,
   least, greatest, earliest and latest of its readings, and for every counter and boot session the
   earliest and latest reading, whether they arrived in time order, and whether one was lower than the
   newest before it; readings of one unit and one source in either case.
   */
  lemma {:induction false} BucketMetrics(obs: seq<Observation>, g: Granularity, intervalMs: int, name: string)
    requires intervalMs > 0 && OneStart(obs, g) && BucketFold(obs, g, intervalMs).Some?
    ensures BucketFold(obs, g, intervalMs).value.Some?
    ensures var b := BucketFold(obs, g, intervalMs).value.value;
            MetricTells(Records(b.metrics, b.counters), name, ReadingsOf(obs, name, Gauge),
                        ReadingsOf(obs, name, Counter))
            && b.startAt == BucketStart(obs[0].observedAt, g)
  {
    hide MetricTells, ReadingsIn, StepMetrics, BucketStart;
    var front, o := obs[..|obs| - 1], obs[|obs| - 1];
    if |obs| == 1 {
      NothingTold(name);
      assert ReadingsOf(front, name, Gauge) == [] && ReadingsOf(front, name, Counter) == [];
      ApplyTells(None, o, g, intervalMs, name, [], []);
    } else {
      BucketMetrics(front, g, intervalMs, name);
      ApplyTells(BucketFold(front, g, intervalMs).value, o, g, intervalMs, name, ReadingsOf(front, name, Gauge),
                 ReadingsOf(front, name, Counter));
    }
  }

  // ---------- what a bucket refuses ----------

  predicate SameOrigin(r: Reading, t: Reading) { r.unit == t.unit && r.source == t.source }

  // Two readings of the gauge, or of the counter in one boot session, of different unit or source.
  ghost predicate Mixed(gauges: seq<Reading>, counters: seq<Reading>) {
    || (exists r, t :: r in gauges && t in gauges && !SameOrigin(r, t))
    || (exists r, t :: r in counters && t in counters && r.boot == t.boot && !SameOrigin(r, t))
  }

  lemma {:induction false} OwnHas(rs: seq<Reading>, boot: string, r: Reading)
    ensures r in Own(rs, boot) <==> r in rs && r.boot == boot
  {
    if |rs| > 0 {
      var front, last := rs[..|rs| - 1], rs[|rs| - 1];
      assert rs == front + [last];
      OwnHas(front, boot, r);
    }
  }

  lemma {:induction false} TellsIsNotMixed(s: Records, name: string, gauges: seq<Reading>, counters: seq<Reading>)
    requires MetricTells(s, name, gauges, counters)
    ensures !Mixed(gauges, counters)
  {
    hide Spans, Lowest, Highest, Own, Total;
    forall r, t | r in gauges && t in gauges
      ensures SameOrigin(r, t)
    {
    }
    var series := OrEmpty(Get(s.counters, name));
    forall r, t | r in counters && t in counters && r.boot == t.boot
      ensures SameOrigin(r, t)
    {
      var k :| 0 <= k < |counters| && counters[k] == r;
      assert Named(series, counters[k].boot);
      var c :| c in series && c.bootSessionId == r.boot;
      var i :| 0 <= i < |series| && series[i] == c;
      assert SessionTells(series[i], counters);
      OwnHas(counters, r.boot, r);
      OwnHas(counters, r.boot, t);
    }
  }

  // A reading that is refused has another origin than an earlier one.
  lemma {:induction false} RefusedReading(s: Records, m: Metric, boot: string, at: int, expected: nat,
      gauges: seq<Reading>, counters: seq<Reading>)
    requires MetricTells(s, m.name, gauges, counters) && StepMetric(s, m, boot, at, expected).None?
    ensures Mixed(gauges + Told(m, boot, at, m.name, Gauge), counters + Told(m, boot, at, m.name, Counter))
  {
    hide Spans, Lowest, Highest, Own, Total, StableSort.Sort;
    var r := Reading(boot, at, m.value.value, m.unit, m.source);
    if m.semantics.Gauge? {
      var t := gauges[0];
      assert t in gauges + [r] && r in gauges + [r] && !SameOrigin(r, t);
    } else {
      var series := OrEmpty(Get(s.counters, m.name));
      var i := FindBoot(series, boot);
      assert SessionTells(series[i], counters);
      var t := Own(counters, boot)[0];
      OwnHas(counters, boot, t);
      assert t in counters + [r] && r in counters + [r] && !SameOrigin(r, t);
    }
  }

  lemma {:induction false} MixedMore(gauges: seq<Reading>, counters: seq<Reading>, g: seq<Reading>, c: seq<Reading>)
    requires Mixed(gauges, counters)
    ensures Mixed(gauges + g, counters + c)
  {
    hide SameOrigin;
    if r, t :| r in gauges && t in gauges && !SameOrigin(r, t) {
      assert r in gauges + g && t in gauges + g;
    } else {
      var r, t :| r in counters && t in counters && r.boot == t.boot && !SameOrigin(r, t);
      assert r in counters + c && t in counters + c;
    }
  }

  lemma {:induction false} StepsRefused(s: Records, obs: seq<Observation>, ms: seq<Metric>, boot: string, at: int,
      expected: nat) returns (name: string)
    requires forall n :: MetricTells(s, n, ReadingsOf(obs, n, Gauge), ReadingsOf(obs, n, Counter))
    requires StepMetrics(s, ms, boot, at, expected).None?
    ensures Mixed(ReadingsOf(obs, name, Gauge) + ReadingsIn(ms, boot, at, name, Gauge),
                  ReadingsOf(obs, name, Counter) + ReadingsIn(ms, boot, at, name, Counter))
  {
    hide MetricTells, StepMetric, Mixed, Told;
    var front, m := ms[..|ms| - 1], ms[|ms| - 1];
    var r := StepMetrics(s, front, boot, at, expected);
    if r.None? {
      name := StepsRefused(s, obs, front, boot, at, expected);
      ReadingsAppend(obs, ms, boot, at, name);
      MixedMore(ReadingsOf(obs, name, Gauge) + ReadingsIn(front, boot, at, name, Gauge),
                ReadingsOf(obs, name, Counter) + ReadingsIn(front, boot, at, name, Counter),
                Told(m, boot, at, name, Gauge), Told(m, boot, at, name, Counter));
    } else {
      name := m.name;
      ReadingsAppend(obs, ms, boot, at, name);
      StepsTell(s, front, boot, at, expected, name, ReadingsOf(obs, name, Gauge), ReadingsOf(obs, name, Counter));
      RefusedReading(r.value, m, boot, at, expected,
                     ReadingsOf(obs, name, Gauge) + ReadingsIn(front, boot, at, name, Gauge),
                     ReadingsOf(obs, name, Counter) + ReadingsIn(front, boot, at, name, Counter));
    }
  }

  lemma {:induction false} ReadingsAppend(obs: seq<Observation>, ms: seq<Metric>, boot: string, at: int, name: string)
    requires |ms| > 0
    ensures forall semantics ::
              ReadingsOf(obs, name, semantics) + ReadingsIn(ms, boot, at, name, semantics)
              == ReadingsOf(obs, name, semantics) + ReadingsIn(ms[..|ms| - 1], boot, at, name, semantics)
                 + Told(ms[|ms| - 1], boot, at, name, semantics)
  {
    forall semantics
      ensures ReadingsOf(obs, name, semantics) + ReadingsIn(ms, boot, at, name, semantics)
           == ReadingsOf(obs, name, semantics) + ReadingsIn(ms[..|ms| - 1], boot, at, name, semantics)
              + Told(ms[|ms| - 1], boot, at, name, semantics)
    {
    }
  }

  ghost predicate MixedMetric(obs: seq<Observation>, name: string) {
    Mixed(ReadingsOf(obs, name, Gauge), ReadingsOf(obs, name, Counter))
  }

  /**
   A bucket refuses its observations exactly when a gauge, or a counter within one boot session, was read
   with two units or two sources.
   */
  lemma {:induction false} RefusedExactly(obs: seq<Observation>, g: Granularity, intervalMs: int)
    requires intervalMs > 0 && OneStart(obs, g)
    ensures BucketFold(obs, g, intervalMs).None? <==> exists name :: MixedMetric(obs, name)
  {
    hide MetricTells, Mixed, BucketStart;
    if BucketFold(obs, g, intervalMs).Some? {
      forall name
        ensures !MixedMetric(obs, name)
      {
        BucketMetrics(obs, g, intervalMs, name);
        var b := BucketFold(obs, g, intervalMs).value.value;
        TellsIsNotMixed(Records(b.metrics, b.counters), name, ReadingsOf(obs, name, Gauge),
                        ReadingsOf(obs, name, Counter));
      }
    } else {
      var name := FoldRefused(obs, g, intervalMs);
      assert MixedMetric(obs, name);
    }
  }

  lemma {:induction false} FoldRefused(obs: seq<Observation>, g: Granularity, intervalMs: int) returns (name: string)
    requires intervalMs > 0 && OneStart(obs, g) && BucketFold(obs, g, intervalMs).None?
    ensures MixedMetric(obs, name)
  {
    hide MetricTells, Mixed, BucketStart, StepMetrics, ReadingsIn;
    var front, o := obs[..|obs| - 1], obs[|obs| - 1];
    var previous := BucketFold(front, g, intervalMs);
    if previous.None? {
      name := FoldRefused(front, g, intervalMs);
      MixedMore(ReadingsOf(front, name, Gauge), ReadingsOf(front, name, Counter),
                ReadingsIn(o.metrics, o.bootSessionId, o.observedAt, name, Gauge),
                ReadingsIn(o.metrics, o.bootSessionId, o.observedAt, name, Counter));
    } else {
      var prior, at := Prior(previous.value, o.observedAt, g), o.observedAt;
      forall n
        ensures MetricTells(RecordsOf(prior), n, ReadingsOf(front, n, Gauge), ReadingsOf(front, n, Counter))
      {
        if |front| == 0 {
          NothingTold(n);
        } else {
          BucketMetrics(front, g, intervalMs, n);
        }
      }
      name := StepsRefused(RecordsOf(prior), front, o.metrics, o.bootSessionId, at,
                           ExpectedSamples(FirstAt(prior, at), LastAt(prior, at), intervalMs));
    }
  }

  // ---------- times and counts ----------

  ghost predicate IsFirstTime(at: int, obs: seq<Observation>) {
    && (exists i :: 0 <= i < |obs| && obs[i].observedAt == at)
    && (forall i :: 0 <= i < |obs| ==> at <= obs[i].observedAt)
  }

  ghost predicate IsLastTime(at: int, obs: seq<Observation>) {
    && (exists i :: 0 <= i < |obs| && obs[i].observedAt == at)
    && (forall i :: 0 <= i < |obs| ==> obs[i].observedAt <= at)
  }

  function WidthOf(g: Granularity): int {
    match g
    case Hourly => 3600000
    case Daily => 86400000
  }

  // The whole intervals that fit between two times, and one sample more.
  ghost predicate IsExpected(expected: int, firstAt: int, lastAt: int, intervalMs: int) {
    0 < expected && (expected - 1) * intervalMs <= lastAt - firstAt < expected * intervalMs
  }

  ghost predicate CountsTell(b: Bucket, obs: seq<Observation>, g: Granularity, intervalMs: int) {
    && |obs| > 0 && b.granularity == g && b.device == obs[|obs| - 1].device && b.expectedIntervalMs == intervalMs
    && b.startAt % WidthOf(g) == 0 && b.endAt == b.startAt + WidthOf(g)
    && (forall i :: 0 <= i < |obs| ==> b.startAt <= obs[i].observedAt < b.endAt)
    && IsFirstTime(b.firstAt, obs) && IsLastTime(b.lastAt, obs)
    && b.sampleCount == |obs| && IsExpected(b.expectedSampleCount, b.firstAt, b.lastAt, intervalMs)
    && b.missingSampleCount == (if |obs| < b.expectedSampleCount then b.expectedSampleCount - |obs| else 0)
    && b.coverageRatio
       == (if |obs| < b.expectedSampleCount then |obs| as real / b.expectedSampleCount as real else 1.0)
    && (b.partial <==> b.startAt < b.firstAt || b.lastAt < b.endAt - intervalMs)
  }

  lemma {:induction false} ExpectedIs(firstAt: int, lastAt: int, intervalMs: int)
    requires intervalMs > 0 && firstAt <= lastAt
    ensures IsExpected(ExpectedSamples(firstAt, lastAt, intervalMs), firstAt, lastAt, intervalMs)
  {
    var d := lastAt - firstAt;
    assert d == intervalMs * (d / intervalMs) + d % intervalMs;
    assert (d / intervalMs + 1) * intervalMs == intervalMs * (d / intervalMs) + intervalMs;
    NotNegative(d, intervalMs);
  }

  lemma {:induction false} NotNegative(d: nat, interval: int)
    requires interval > 0
    ensures d / interval >= 0
  {
  }

  lemma {:induction false} RatioIs(count: nat, expected: int)
    requires expected > 0
    ensures RMin(1.0, count as real / expected as real)
         == if count < expected then count as real / expected as real else 1.0
  {
    if count < expected {
      BelowOne(count as real, expected as real);
    } else {
      AtLeastOne(count as real, expected as real);
    }
  }

  lemma {:induction false} BelowOne(x: real, y: real)
    requires x < y && 0.0 < y
    ensures x / y < 1.0
  {
  }

  lemma {:induction false} AtLeastOne(x: real, y: real)
    requires y <= x && 0.0 < y
    ensures 1.0 <= x / y
  {
  }

  lemma {:induction false} StartIs(at: int, g: Granularity)
    ensures var start := BucketStart(at, g);
            start % WidthOf(g) == 0 && start <= at < start + WidthOf(g)
  {
  }

  // The derived fields of a bucket.
  lemma {:induction false} MadeTells(b: Bucket, obs: seq<Observation>, g: Granularity, intervalMs: int)
    requires intervalMs > 0 && OneStart(obs, g) && IsFirstTime(b.firstAt, obs) && IsLastTime(b.lastAt, obs)
    requires b == MakeBucket(obs[|obs| - 1].device, g, BucketStart(obs[0].observedAt, g), b.firstAt, b.lastAt, |obs|,
                             intervalMs, b.metrics, b.counters)
    ensures CountsTell(b, obs, g, intervalMs)
  {
    hide ExpectedSamples, IsExpected, RMin, BucketStart;
    ExpectedIs(b.firstAt, b.lastAt, intervalMs);
    PositiveExpected(b.firstAt, b.lastAt, intervalMs);
    RatioIs(|obs|, b.expectedSampleCount);
    forall i | 0 <= i < |obs|
      ensures b.startAt <= obs[i].observedAt < b.startAt + WidthOf(g)
    {
      StartIs(obs[i].observedAt, g);
    }
    StartIs(obs[0].observedAt, g);
    assert WidthOf(g) == Width(g);
  }

  lemma {:induction false} PositiveExpected(firstAt: int, lastAt: int, intervalMs: int)
    requires intervalMs > 0
    ensures ExpectedSamples(firstAt, lastAt, intervalMs) > 0
  {
  }

  // The fields that the fold computes one observation at a time.
  ghost predicate Folded(b: Bucket, obs: seq<Observation>, g: Granularity, intervalMs: int)
    requires intervalMs > 0 && |obs| > 0
  {
    && IsFirstTime(b.firstAt, obs) && IsLastTime(b.lastAt, obs)
    && b == MakeBucket(obs[|obs| - 1].device, g, BucketStart(obs[0].observedAt, g), b.firstAt, b.lastAt, |obs|,
                       intervalMs, b.metrics, b.counters)
  }

  lemma {:induction false} FirstFolded(o: Observation, g: Granularity, intervalMs: int)
    requires intervalMs > 0 && Apply(None, o, g, intervalMs).Some?
    ensures Folded(Apply(None, o, g, intervalMs).value, [o], g, intervalMs)
  {
    hide StepMetrics, BucketStart, ExpectedSamples;
    assert [o][0] == o;
  }

  lemma {:induction false} NextFolded(b: Bucket, obs: seq<Observation>, o: Observation, g: Granularity, intervalMs: int)
    requires intervalMs > 0 && |obs| > 0 && Folded(b, obs, g, intervalMs)
    requires BucketStart(o.observedAt, g) == BucketStart(obs[0].observedAt, g)
    requires Apply(Some(b), o, g, intervalMs).Some?
    ensures Folded(Apply(Some(b), o, g, intervalMs).value, obs + [o], g, intervalMs)
  {
    hide StepMetrics, BucketStart, ExpectedSamples, RMin, Missing;
    var all := obs + [o];
    assert all[|obs|] == o && forall i :: 0 <= i < |obs| ==> all[i] == obs[i];
    var i :| 0 <= i < |obs| && obs[i].observedAt == b.firstAt;
    var j :| 0 <= j < |obs| && obs[j].observedAt == b.lastAt;
    assert all[i].observedAt == b.firstAt && all[j].observedAt == b.lastAt;
  }

  lemma {:induction false} FoldIsFolded(obs: seq<Observation>, g: Granularity, intervalMs: int)
    requires intervalMs > 0 && OneStart(obs, g) && BucketFold(obs, g, intervalMs).Some?
    ensures BucketFold(obs, g, intervalMs).value.Some?
    ensures Folded(BucketFold(obs, g, intervalMs).value.value, obs, g, intervalMs)
  {
    hide Folded, Apply, BucketStart;
    var front, o := obs[..|obs| - 1], obs[|obs| - 1];
    assert obs == front + [o];
    if |obs| == 1 {
      FirstFolded(o, g, intervalMs);
    } else {
      FoldIsFolded(front, g, intervalMs);
      NextFolded(BucketFold(front, g, intervalMs).value.value, front, o, g, intervalMs);
    }
  }

  /** The counts, times and coverage of a folded bucket, in terms of the observations alone. */
  lemma {:induction false} BucketCounts(obs: seq<Observation>, g: Granularity, intervalMs: int)
    requires intervalMs > 0 && OneStart(obs, g) && BucketFold(obs, g, intervalMs).Some?
    ensures BucketFold(obs, g, intervalMs).value.Some?
    ensures CountsTell(BucketFold(obs, g, intervalMs).value.value, obs, g, intervalMs)
  {
    hide MakeBucket, BucketFold, CountsTell, BucketStart;
    FoldIsFolded(obs, g, intervalMs);
    MadeTells(BucketFold(obs, g, intervalMs).value.value, obs, g, intervalMs);
  }

  // ---------- the rebuilt day ----------

  /** A day rebuilt from its hourly buckets tells the same of the day's observations. */
  lemma {:induction false} RebuiltDay(obs: seq<Observation>, day: int, intervalMs: int, name: string)
    requires intervalMs > 0 && OneDay(obs, day) && |obs| > 0
    requires HourlyFold(obs, intervalMs).Some? && Summarize(HourlyFold(obs, intervalMs).value, day, intervalMs).Some?
    ensures Summarize(HourlyFold(obs, intervalMs).value, day, intervalMs).value.Some?
    ensures var b := Summarize(HourlyFold(obs, intervalMs).value, day, intervalMs).value.value;
            && CountsTell(b, obs, Daily, intervalMs)
            && MetricTells(Records(b.metrics, b.counters), name, ReadingsOf(obs, name, Gauge),
                           ReadingsOf(obs, name, Counter))
  {
    hide HourlyFold, BucketFold, Summarize, BucketStart, CountsTell, MetricTells;
    RollUp(obs, day, intervalMs);
    DayHasOneStart(obs, day);
    BucketMetrics(obs, Daily, intervalMs, name);
    BucketCounts(obs, Daily, intervalMs);
    var direct := BucketFold(obs, Daily, intervalMs).value.value;
    SameDayTells(Summarize(HourlyFold(obs, intervalMs).value, day, intervalMs).value.value, direct, obs, intervalMs,
                 name);
  }

  /** And it is refused, in its hours or in the rebuilding, exactly when a metric of the day mixes units or sources. */
  lemma {:induction false} RebuildingRefused(obs: seq<Observation>, day: int, intervalMs: int)
    requires intervalMs > 0 && OneDay(obs, day) && |obs| > 0
    ensures var hours := HourlyFold(obs, intervalMs);
            hours.None? || Summarize(hours.value, day, intervalMs).None? <==> exists name :: MixedMetric(obs, name)
  {
    hide HourlyFold, BucketFold, Summarize, MixedMetric, OneStart;
    RollUp(obs, day, intervalMs);
    DayHasOneStart(obs, day);
    RefusedExactly(obs, Daily, intervalMs);
  }

  lemma {:induction false} DayHasOneStart(obs: seq<Observation>, day: int)
    requires OneDay(obs, day) && |obs| > 0
    ensures OneStart(obs, Daily)
  {
    hide BucketStart;
    forall i | 0 <= i < |obs|
      ensures BucketStart(obs[i].observedAt, Daily) == day
    {
      DayStart(obs[i].observedAt, day);
    }
  }

  lemma {:induction false} SameDayTells(b: Bucket, direct: Bucket, obs: seq<Observation>, intervalMs: int, name: string)
    requires SameDay(b, direct) && CountsTell(direct, obs, Daily, intervalMs)
    requires MetricTells(Records(direct.metrics, direct.counters), name, ReadingsOf(obs, name, Gauge),
                         ReadingsOf(obs, name, Counter))
    ensures CountsTell(b, obs, Daily, intervalMs)
    ensures MetricTells(Records(b.metrics, b.counters), name, ReadingsOf(obs, name, Gauge),
                        ReadingsOf(obs, name, Counter))
  {
    hide GaugeTells, SeriesTells, ReadingsOf, IsFirstTime, IsLastTime, IsExpected;
    assert b.counters == direct.counters by {
      assert b.(metrics := map[]).counters == direct.(metrics := map[]).counters;
    }
    assert name in b.metrics <==> name in Cores(b.metrics);
    assert name in direct.metrics <==> name in Cores(direct.metrics);
    assert name in b.metrics ==> b.metrics[name].core == Cores(direct.metrics)[name];
    var x, y := b.(metrics := map[]), direct.(metrics := map[]);
    assert x == y && x.device == b.device && y.device == direct.device;
  }

  /** Buckets of other days, and the order in which the buckets are listed, play no part in a day. */
  lemma {:induction false} OtherDaysIgnored(listed: seq<Bucket>, hours: seq<Bucket>, device: Device, day: int,
      intervalMs: int)
    requires intervalMs > 0 && HourChain(hours, device, day)
    requires forall i, j :: 0 <= i < j < |listed| ==> listed[i].startAt != listed[j].startAt
    requires forall b :: b in hours <==> b in listed && day <= b.startAt < day + 86400000
    ensures Summarize(listed, day, intervalMs) == Summarize(hours, day, intervalMs)
  {
    hide IsHour, MergeAll;
    InDayMembers(listed, day);
    AllInDay(hours, device, day);
    var key := StartTime();
    var sorted := StableSort.Sort(InDay(listed, day), key);
    StableSort.SortIsStrict(InDay(listed, day), key);
    forall b
      ensures b in sorted <==> b in hours
    {
      StableSort.SortMembers(InDay(listed, day), key, b);
    }
    StableSort.StrictlySortedUnique(sorted, hours, key);
    StableSort.SortOfSorted(hours, key);
  }

  lemma {:induction false} InDayMembers(listed: seq<Bucket>, day: int)
    requires forall i, j :: 0 <= i < j < |listed| ==> listed[i].startAt != listed[j].startAt
    ensures forall b :: b in InDay(listed, day) <==> b in listed && day <= b.startAt < day + 86400000
    ensures StableSort.DistinctKeys(InDay(listed, day), StartTime())
  {
    if |listed| > 0 {
      var front, last := listed[..|listed| - 1], listed[|listed| - 1];
      assert listed == front + [last];
      InDayMembers(front, day);
      var before := InDay(front, day);
      forall i | 0 <= i < |before|
        ensures before[i].startAt != last.startAt
      {
        assert before[i] in front;
      }
    }
  }

  // The first and last time of a list of buckets, in any order.
  lemma {:induction false} TimesOfBuckets(buckets: seq<Bucket>)
    requires |buckets| > 0
    ensures exists i :: 0 <= i < |buckets| && buckets[i].firstAt == EarliestAt(buckets)
    ensures exists i :: 0 <= i < |buckets| && buckets[i].lastAt == LatestAt(buckets)
    ensures forall i :: 0 <= i < |buckets| ==>
              EarliestAt(buckets) <= buckets[i].firstAt && buckets[i].lastAt <= LatestAt(buckets)
  {
    if |buckets| > 1 {
      var front, last := buckets[..|buckets| - 1], buckets[|buckets| - 1];
      TimesOfBuckets(front);
      var i :| 0 <= i < |front| && front[i].firstAt == EarliestAt(front);
      var j :| 0 <= j < |front| && front[j].lastAt == LatestAt(front);
      assert buckets[i] == front[i] && buckets[j] == front[j] && buckets[|front|] == last;
    } else {
      assert buckets[0].firstAt == EarliestAt(buckets) && buckets[0].lastAt == LatestAt(buckets);
    }
  }

  // ---------- merging in either order ----------

  lemma {:induction false} EarliestJoined(rs: seq<Reading>, i: int, ts: seq<Reading>, k: int)
    requires Earliest(rs, i) && Earliest(ts, k)
    ensures Earliest(rs + ts, if ts[k].at < rs[i].at then |rs| + k else i)
  {
    var all := rs + ts;
    assert forall j :: 0 <= j < |rs| ==> all[j] == rs[j];
    assert forall j :: 0 <= j < |ts| ==> all[|rs| + j] == ts[j];
    assert forall j :: |rs| <= j < |all| ==> all[j] == ts[j - |rs|];
  }

  lemma {:induction false} NewestJoined(rs: seq<Reading>, i: int, ts: seq<Reading>, k: int)
    requires Newest(rs, i) && Newest(ts, k)
    ensures Newest(rs + ts, if rs[i].at <= ts[k].at then |rs| + k else i)
  {
    var all := rs + ts;
    assert forall j :: 0 <= j < |rs| ==> all[j] == rs[j];
    assert forall j :: 0 <= j < |ts| ==> all[|rs| + j] == ts[j];
    assert forall j :: |rs| <= j < |all| ==> all[j] == ts[j - |rs|];
  }

  lemma {:induction false} LowestJoined(x: real, rs: seq<Reading>, y: real, ts: seq<Reading>)
    requires Lowest(x, rs) && Lowest(y, ts)
    ensures Lowest(RMin(x, y), rs + ts)
  {
    var all := rs + ts;
    var i :| 0 <= i < |rs| && rs[i].value == x;
    var k :| 0 <= k < |ts| && ts[k].value == y;
    assert all[i].value == x && all[|rs| + k].value == y;
  }

  lemma {:induction false} HighestJoined(x: real, rs: seq<Reading>, y: real, ts: seq<Reading>)
    requires Highest(x, rs) && Highest(y, ts)
    ensures Highest(RMax(x, y), rs + ts)
  {
    var all := rs + ts;
    var i :| 0 <= i < |rs| && rs[i].value == x;
    var k :| 0 <= k < |ts| && ts[k].value == y;
    assert all[i].value == x && all[|rs| + k].value == y;
  }

  lemma {:induction false} SpansJoined(e: GaugeCore, rs: seq<Reading>, c: GaugeCore, ts: seq<Reading>)
    requires Spans(e.firstValue, e.firstAt, e.lastValue, e.lastAt, rs)
    requires Spans(c.firstValue, c.firstAt, c.lastValue, c.lastAt, ts)
    ensures var r := JoinCores(e, c);
            Spans(r.firstValue, r.firstAt, r.lastValue, r.lastAt, rs + ts)
  {
    hide Earliest, Newest;
    var all := rs + ts;
    var i :| 0 <= i < |rs| && Earliest(rs, i) && e.firstValue == rs[i].value && e.firstAt == rs[i].at;
    var j :| 0 <= j < |rs| && Newest(rs, j) && e.lastValue == rs[j].value && e.lastAt == rs[j].at;
    var k :| 0 <= k < |ts| && Earliest(ts, k) && c.firstValue == ts[k].value && c.firstAt == ts[k].at;
    var l :| 0 <= l < |ts| && Newest(ts, l) && c.lastValue == ts[l].value && c.lastAt == ts[l].at;
    EarliestJoined(rs, i, ts, k);
    NewestJoined(rs, j, ts, l);
    assert all[i] == rs[i] && all[j] == rs[j] && all[|rs| + k] == ts[k] && all[|rs| + l] == ts[l];
  }

  lemma {:induction false} TotalAppend(rs: seq<Reading>, ts: seq<Reading>)
    ensures Total(rs + ts) == Total(rs) + Total(ts)
  {
    if |ts| == 0 {
      assert rs + ts == rs;
    } else {
      assert (rs + ts)[..|rs + ts| - 1] == rs + ts[..|ts| - 1];
      TotalAppend(rs, ts[..|ts| - 1]);
    }
  }

  /**
   Joining two gauge summaries tells the readings of both, the second one's arriving after the first
   one's, however their times lie.
   */
  lemma {:induction false} JoinedGaugeTells(e: GaugeCore, rs: seq<Reading>, c: GaugeCore, ts: seq<Reading>)
    requires GaugeTells(e, rs) && GaugeTells(c, ts) && e.unit == c.unit && e.source == c.source
    ensures GaugeTells(JoinCores(e, c), rs + ts)
  {
    hide Spans, Lowest, Highest, Total, RMin, RMax;
    LowestJoined(e.minimum, rs, c.minimum, ts);
    HighestJoined(e.maximum, rs, c.maximum, ts);
    SpansJoined(e, rs, c, ts);
    TotalAppend(rs, ts);
  }

  /**
   Joining a counter summary to one that begins and ends earlier, wherever it begins in between. In the
   opposite order everything comes out the same but the reset, and the delta with it: there the branch
   for an earlier summary compares the wrong way round and reports a reset when the values rose. So the
   two orders agree exactly when a reset was known before or the values meet.
   */
  lemma {:induction false} CountersEitherWay(c: CounterSummary, d: CounterSummary)
    requires c.firstAt <= d.firstAt && c.lastAt < d.lastAt
    requires c.bootSessionId == d.bootSessionId && c.unit == d.unit && c.source == d.source
    ensures var r, known := JoinCounters(c, d), c.resetObserved || d.resetObserved;
            && r == CounterSummary(c.bootSessionId, c.firstValue, c.firstAt, d.lastValue, d.lastAt, r.delta,
                                   known || d.firstValue < c.lastValue, c.orderingComplete && d.orderingComplete,
                                   c.unit, c.source)
            && r.delta == (if r.orderingComplete && !r.resetObserved then Some(d.lastValue - c.firstValue) else None)
    ensures c.firstAt < d.firstAt ==>
              var inOrder, r := JoinCounters(c, d), JoinCounters(d, c);
              && r.(resetObserved := inOrder.resetObserved, delta := inOrder.delta) == inOrder
              && r.resetObserved == (c.resetObserved || d.resetObserved || c.lastValue < d.firstValue)
              && r.delta == (if r.orderingComplete && !r.resetObserved then Some(d.lastValue - c.firstValue) else None)
              && (r.resetObserved == inOrder.resetObserved
                  <==> c.resetObserved || d.resetObserved || c.lastValue == d.firstValue)
  {
  }

  // A summary that lies within the stretch of another adds its resets and leaves the order unknown; the
  // other way round, the outer one's first and last readings hold and are compared with the inner one's.
  lemma {:induction false} CountersNested(outer: CounterSummary, inner: CounterSummary)
    requires outer.firstAt <= inner.firstAt && inner.lastAt <= outer.lastAt
    ensures JoinCounters(outer, inner)
         == outer.(resetObserved := outer.resetObserved || inner.resetObserved, orderingComplete := false,
                   delta := None)
    ensures outer.firstAt < inner.firstAt && inner.lastAt < outer.lastAt ==>
              var r := JoinCounters(inner, outer);
              && r.firstValue == outer.firstValue && r.firstAt == outer.firstAt
              && r.lastValue == outer.lastValue && r.lastAt == outer.lastAt
              && r.orderingComplete == (outer.orderingComplete && inner.orderingComplete)
              && (r.resetObserved <==> || outer.resetObserved || inner.resetObserved
                                       || outer.lastValue < inner.firstValue || outer.firstValue < inner.lastValue)
  {
  }
}
