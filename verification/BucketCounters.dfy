/**
 The counters that device health buckets hold, against the raw readings the buckets were folded from.
 */
module BucketCounters {
  import opened Wrappers
  import opened DeviceHealthHistory
  import opened DeviceHealthLaws
  import C = CounterSeries
  import StableSort

  // ---------- observations as the query reads them ----------

  function Read(ms: seq<Metric>): seq<C.Metric> {
    if |ms| == 0 then []
    else
      var m := ms[|ms| - 1];
      Read(ms[..|ms| - 1]) + [C.Metric(m.name, m.value, m.source)]
  }

  function ReadOne(o: Observation): C.Observation {
    C.Observation(o.bootSessionId, o.observedAt, Read(o.metrics))
  }

  function ReadAll(obs: seq<Observation>): seq<C.Observation> {
    if |obs| == 0 then [] else ReadAll(obs[..|obs| - 1]) + [ReadOne(obs[|obs| - 1])]
  }

  // The readings of one metric.
  function Readings(obs: seq<Observation>, name: string): seq<C.Row> { C.Rows(ReadAll(obs), name) }

  function AsCounter(c: CounterSummary): C.Counter {
    C.Counter(c.bootSessionId, c.firstValue, c.firstAt, c.lastValue, c.lastAt, c.delta, c.resetObserved,
              c.orderingComplete, c.unit, c.source)
  }

  function AsCounters(series: seq<CounterSummary>): seq<C.Counter> {
    if |series| == 0 then [] else AsCounters(series[..|series| - 1]) + [AsCounter(series[|series| - 1])]
  }

  function CountersOf(b: Bucket, name: string): seq<CounterSummary> {
    if name in b.counters then b.counters[name] else []
  }

  // The summaries of one metric, a list for each bucket.
  function CounterLists(buckets: seq<Bucket>, name: string): seq<seq<C.Counter>> {
    if |buckets| == 0 then []
    else CounterLists(buckets[..|buckets| - 1], name) + [AsCounters(CountersOf(buckets[|buckets| - 1], name))]
  }

  // The metric is a counter wherever it is reported.
  ghost predicate IsCounter(obs: seq<Observation>, name: string) {
    forall i, k :: 0 <= i < |obs| && 0 <= k < |obs[i].metrics| && obs[i].metrics[k].name == name ==>
      obs[i].metrics[k].semantics.Counter?
  }

  ghost predicate TimeOrder(obs: seq<Observation>) {
    forall i, j :: 0 <= i < j < |obs| ==> obs[i].observedAt <= obs[j].observedAt
  }

  // ---------- one bucket ----------

  // The summary of one session's readings, except that gaps between readings are not looked at.
  ghost predicate Tells(c: CounterSummary, key: string, rows: seq<C.Row>) {
    && |rows| > 0 && c.bootSessionId == key && c.source == rows[0].source
    && c.firstValue == rows[0].value && c.firstAt == rows[0].at
    && c.lastValue == rows[|rows| - 1].value && c.lastAt == rows[|rows| - 1].at
    && c.resetObserved == C.Reset(rows) && c.orderingComplete
    && c.delta == C.Delta(c.firstValue, c.lastValue, c.resetObserved, true)
  }

  ghost predicate TellsAll(series: seq<CounterSummary>, rows: seq<C.Row>) {
    && |series| == |C.Sessions(rows)|
    && forall i :: 0 <= i < |series| ==> Tells(series[i], C.Sessions(rows)[i], C.Session(rows, C.Sessions(rows)[i]))
  }

  lemma {:induction false} TellsFirst(m: Metric, r: C.Row)
    requires m.value == Some(r.value) && m.source == r.source
    ensures Tells(FirstCounter(r.boot, m, r.at), r.boot, [r])
  {
  }

  lemma {:induction false} TellsMore(c: CounterSummary, rows: seq<C.Row>, r: C.Row)
    requires Tells(c, r.boot, rows) && rows[0].at <= rows[|rows| - 1].at <= r.at
    ensures Tells(UpdateCounter(c, r.value, r.at), r.boot, rows + [r])
  {
    hide C.Reset;
    C.ResetSplit(rows, [r]);
    OneReading(r);
  }

  lemma {:induction false} OneReading(r: C.Row)
    ensures !C.Reset([r])
  {
  }

  // One more reading leaves the other sessions as they are.
  lemma {:induction false} OtherSession(rows: seq<C.Row>, r: C.Row, key: string)
    requires key != r.boot
    ensures C.Session(rows + [r], key) == C.Session(rows, key)
  {
    assert (rows + [r])[..|rows|] == rows;
  }

  lemma {:induction false} OwnSession(rows: seq<C.Row>, r: C.Row)
    ensures C.Session(rows + [r], r.boot) == C.Session(rows, r.boot) + [r]
    ensures C.Sessions(rows + [r]) == C.AddKey(C.Sessions(rows), r.boot)
  {
    assert (rows + [r])[..|rows|] == rows;
  }

  lemma {:induction false} TellsNew(series: seq<CounterSummary>, rows: seq<C.Row>, r: C.Row, m: Metric)
    requires TellsAll(series, rows) && m.value == Some(r.value) && m.source == r.source
    requires FindBoot(series, r.boot) == |series|
    ensures TellsAll(series + [FirstCounter(r.boot, m, r.at)], rows + [r])
  {
    hide C.Sessions, C.Session, Tells, FirstCounter;
    var keys := C.Sessions(rows);
    OwnSession(rows, r);
    assert r.boot !in keys by {
      SessionNamed(series, rows, r.boot);
    }
    assert C.Session(rows, r.boot) == [] by {
      C.KeysHaveItems(rows, C.RowBoot(), r.boot);
      SessionIs(rows, r.boot);
    }
    assert [] + [r] == [r];
    TellsFirst(m, r);
    forall i | 0 <= i < |series|
      ensures Tells(series[i], keys[i], C.Session(rows + [r], keys[i]))
    {
      OtherSession(rows, r, keys[i]);
    }
  }

  lemma {:induction false} SessionIs(rows: seq<C.Row>, key: string)
    ensures C.Session(rows, key) == C.Of(rows, C.RowBoot(), key) && C.Sessions(rows) == C.Keys(rows, C.RowBoot())
  {
  }

  lemma {:induction false} SessionNamed(series: seq<CounterSummary>, rows: seq<C.Row>, key: string)
    requires TellsAll(series, rows)
    ensures key in C.Sessions(rows) ==> FindBoot(series, key) < |series|
  {
    hide C.Sessions, C.Session;
    if key in C.Sessions(rows) {
      var i :| 0 <= i < |C.Sessions(rows)| && C.Sessions(rows)[i] == key;
      assert series[i].bootSessionId == key;
    }
  }

  lemma {:induction false} TellsKnown(series: seq<CounterSummary>, rows: seq<C.Row>, r: C.Row)
    requires TellsAll(series, rows) && C.InOrder(rows + [r])
    requires FindBoot(series, r.boot) < |series|
    ensures var i := FindBoot(series, r.boot);
            TellsAll(series[i := UpdateCounter(series[i], r.value, r.at)], rows + [r])
  {
    hide C.Sessions, C.Session, UpdateCounter, C.InOrder, C.Reset;
    var keys, i := C.Sessions(rows), FindBoot(series, r.boot);
    OwnSession(rows, r);
    assert keys[i] == r.boot && r.boot in keys;
    C.PartInOrder(rows, [r]);
    C.SessionInOrder(rows, r.boot);
    OwnOrder(rows, r);
    TellsMore(series[i], C.Session(rows, r.boot), r);
    C.KeysAreDistinct(rows, C.RowBoot());
    SessionIs(rows, r.boot);
    forall j | 0 <= j < |series| && j != i
      ensures Tells(series[j], keys[j], C.Session(rows + [r], keys[j]))
    {
      OtherSession(rows, r, keys[j]);
    }
  }

  lemma {:induction false} OwnOrder(rows: seq<C.Row>, r: C.Row)
    requires C.InOrder(rows + [r]) && |C.Session(rows, r.boot)| > 0
    ensures var own := C.Session(rows, r.boot);
            own[0].at <= own[|own| - 1].at <= r.at
  {
    hide C.Session;
    var all := rows + [r];
    OwnSession(rows, r);
    C.SessionInOrder(all, r.boot);
    var own := C.Session(all, r.boot);
    assert own[|own| - 1] == r;
  }

  // One reading of the metric keeps the series telling the readings.
  lemma {:induction false} TellsStep(series: seq<CounterSummary>, rows: seq<C.Row>, r: C.Row, m: Metric)
    requires TellsAll(series, rows) && C.InOrder(rows + [r]) && m.value == Some(r.value) && m.source == r.source
    requires PlainStep(series, r.boot, m, r.at).Some?
    ensures TellsAll(PlainStep(series, r.boot, m, r.at).value, rows + [r])
  {
    hide TellsAll, C.InOrder, UpdateCounter, FirstCounter;
    if FindBoot(series, r.boot) == |series| {
      TellsNew(series, rows, r, m);
    } else {
      TellsKnown(series, rows, r);
    }
  }

  // ---------- one observation ----------

  function CountersIn(s: Records, name: string): seq<CounterSummary> {
    if name in s.counters then s.counters[name] else []
  }

  // The metric's series tells the readings so far, and its times lie within bounds.
  ghost predicate Holds(s: Records, name: string, rows: seq<C.Row>, lo: int, at: int) {
    && C.InOrder(rows) && (forall i :: 0 <= i < |rows| ==> rows[i].at <= at)
    && SeriesBetween(CountersIn(s, name), lo, at) && TellsAll(CountersIn(s, name), rows)
  }

  // The readings of the name in one metric of an observation.
  function OneRow(m: Metric, boot: string, at: int, name: string): seq<C.Row> {
    if m.name == name && m.value.Some? then [C.Row(boot, m.value.value, at, m.source)] else []
  }

  lemma {:induction false} MetricKeeps(s: Records, m: Metric, boot: string, at: int, expected: nat, name: string,
      rows: seq<C.Row>, lo: int)
    requires lo <= at && Holds(s, name, rows, lo, at) && (m.name == name ==> m.semantics.Counter?)
    requires StepMetric(s, m, boot, at, expected).Some?
    ensures Holds(StepMetric(s, m, boot, at, expected).value, name, rows + OneRow(m, boot, at, name), lo, at)
  {
    hide TellsAll, SeriesBetween, PlainStep, StepSeries, C.InOrder;
    assert rows + [] == rows;
    if m.name == name && m.value.Some? {
      var r := C.Row(boot, m.value.value, at, m.source);
      InOrderMore(rows, r);
      SortedStep(CountersIn(s, name), boot, m, lo, at, at);
      TellsStep(CountersIn(s, name), rows, r, m);
    }
  }

  lemma {:induction false} InOrderMore(rows: seq<C.Row>, r: C.Row)
    requires C.InOrder(rows) && forall i :: 0 <= i < |rows| ==> rows[i].at <= r.at
    ensures C.InOrder(rows + [r])
  {
  }

  lemma {:induction false} ReadRow(o: C.Observation, ms: seq<Metric>, name: string)
    requires |ms| > 0
    ensures C.MetricRows(o, Read(ms), name)
         == C.MetricRows(o, Read(ms[..|ms| - 1]), name)
            + OneRow(ms[|ms| - 1], o.bootSessionId, o.observedAt, name)
  {
    var all := Read(ms);
    assert all[..|all| - 1] == Read(ms[..|ms| - 1]);
  }

  lemma {:induction false} MetricsKeep(s: Records, o: C.Observation, ms: seq<Metric>, expected: nat, name: string,
      rows: seq<C.Row>, lo: int)
    requires lo <= o.observedAt && Holds(s, name, rows, lo, o.observedAt)
    requires forall k :: 0 <= k < |ms| && ms[k].name == name ==> ms[k].semantics.Counter?
    requires StepMetrics(s, ms, o.bootSessionId, o.observedAt, expected).Some?
    ensures Holds(StepMetrics(s, ms, o.bootSessionId, o.observedAt, expected).value, name,
                  rows + C.MetricRows(o, Read(ms), name), lo, o.observedAt)
  {
    hide Holds, StepMetric;
    if |ms| == 0 {
      assert rows + [] == rows;
    } else {
      var front, m := ms[..|ms| - 1], ms[|ms| - 1];
      MetricsKeep(s, o, front, expected, name, rows, lo);
      ReadRow(o, ms, name);
      var before := C.MetricRows(o, Read(front), name);
      assert rows + (before + OneRow(m, o.bootSessionId, o.observedAt, name))
          == rows + before + OneRow(m, o.bootSessionId, o.observedAt, name);
      MetricKeeps(StepMetrics(s, front, o.bootSessionId, o.observedAt, expected).value, m, o.bootSessionId,
                  o.observedAt, expected, name, rows + before, lo);
    }
  }

  // ---------- a whole bucket ----------

  // Observations in time order that fall into one bucket.
  ghost predicate OneBucket(obs: seq<Observation>, g: Granularity) {
    && |obs| > 0 && TimeOrder(obs)
    && forall i :: 0 <= i < |obs| ==> BucketStart(obs[i].observedAt, g) == BucketStart(obs[0].observedAt, g)
  }

  lemma {:induction false} HoldsNothing(name: string, lo: int, at: int)
    ensures Holds(Records(map[], map[]), name, [], lo, at)
  {
  }

  lemma {:induction false} HoldsLater(s: Records, name: string, rows: seq<C.Row>, lo: int, at: int, at': int)
    requires Holds(s, name, rows, lo, at) && at <= at'
    ensures Holds(s, name, rows, lo, at')
  {
  }

  ghost function RecordsIn(b: Bucket): Records { Records(b.metrics, b.counters) }

  lemma {:induction false} ApplyKeeps(previous: Option<Bucket>, o: Observation, g: Granularity, intervalMs: int,
      name: string, rows: seq<C.Row>, lo: int)
    requires intervalMs > 0 && lo <= o.observedAt && IsCounter([o], name)
    requires Holds(RecordsOf(Prior(previous, o.observedAt, g)), name, rows, lo, o.observedAt)
    requires Apply(previous, o, g, intervalMs).Some?
    ensures var b := Apply(previous, o, g, intervalMs).value;
            b.startAt == BucketStart(o.observedAt, g)
            && Holds(RecordsIn(b), name, rows + C.MetricRows(ReadOne(o), Read(o.metrics), name), lo, o.observedAt)
  {
    hide Holds, StepMetrics, C.MetricRows;
    var prior, at := Prior(previous, o.observedAt, g), o.observedAt;
    assert [o][0] == o;
    MetricsKeep(RecordsOf(prior), ReadOne(o), o.metrics,
                ExpectedSamples(FirstAt(prior, at), LastAt(prior, at), intervalMs), name, rows, lo);
  }

  // The fold of one bucket's observations holds a summary for every boot session, in their order.
  lemma {:induction false} FoldTells(obs: seq<Observation>, g: Granularity, intervalMs: int, name: string)
    requires intervalMs > 0 && OneBucket(obs, g) && IsCounter(obs, name) && BucketFold(obs, g, intervalMs).Some?
    ensures BucketFold(obs, g, intervalMs).value.Some?
    ensures var b := BucketFold(obs, g, intervalMs).value.value;
            b.startAt == BucketStart(obs[0].observedAt, g)
            && Holds(RecordsIn(b), name, Readings(obs, name), obs[0].observedAt, obs[|obs| - 1].observedAt)
  {
    hide Holds, Apply, C.MetricRows, Read, Readings, BucketStart, TimeOrder, IsCounter;
    var front, o := obs[..|obs| - 1], obs[|obs| - 1];
    var lo := obs[0].observedAt;
    ReadingsLast(obs, name);
    BucketFront(obs, g, name);
    if |obs| == 1 {
      HoldsNothing(name, lo, o.observedAt);
      assert Readings(front, name) == [] by {
        NoReadings(name);
      }
      ApplyKeeps(None, o, g, intervalMs, name, [], lo);
    } else {
      FoldTells(front, g, intervalMs, name);
      var b := BucketFold(front, g, intervalMs).value.value;
      HoldsLater(RecordsIn(b), name, Readings(front, name), lo, front[|front| - 1].observedAt, o.observedAt);
      ApplyKeeps(Some(b), o, g, intervalMs, name, Readings(front, name), lo);
    }
  }

  lemma {:induction false} NoReadings(name: string)
    ensures Readings([], name) == []
  {
  }

  // What the observations before the last one and the last one keep of being one bucket.
  lemma {:induction false} BucketFront(obs: seq<Observation>, g: Granularity, name: string)
    requires OneBucket(obs, g) && IsCounter(obs, name)
    ensures var front, o := obs[..|obs| - 1], obs[|obs| - 1];
            && IsCounter(front, name) && IsCounter([o], name) && obs[0].observedAt <= o.observedAt
            && BucketStart(o.observedAt, g) == BucketStart(obs[0].observedAt, g)
            && (|front| > 0 ==> OneBucket(front, g) && front[|front| - 1].observedAt <= o.observedAt)
  {
    hide BucketStart;
  }

  lemma {:induction false} ReadingsLast(obs: seq<Observation>, name: string)
    requires |obs| > 0
    ensures var o := obs[|obs| - 1];
            Readings(obs, name) == Readings(obs[..|obs| - 1], name) + C.MetricRows(ReadOne(o), Read(o.metrics), name)
  {
    hide C.MetricRows, Read;
    var all := ReadAll(obs);
    assert all[..|all| - 1] == ReadAll(obs[..|obs| - 1]);
  }

  // ---------- summaries that differ in unit, ordering and delta only ----------

  ghost predicate Alike(c: C.Counter, d: C.Counter) {
    c == d.(unit := c.unit, orderingComplete := c.orderingComplete, delta := c.delta)
  }

  ghost predicate AllAlike(xs: seq<C.Counter>, ys: seq<C.Counter>) {
    |xs| == |ys| && forall i :: 0 <= i < |xs| ==> Alike(xs[i], ys[i]) && xs[i].orderingComplete
  }

  lemma {:induction false} AsCounterAt(series: seq<CounterSummary>, i: nat)
    ensures |AsCounters(series)| == |series|
    ensures i < |series| ==> AsCounters(series)[i] == AsCounter(series[i])
  {
    if |series| > 0 {
      AsCounterAt(series[..|series| - 1], i);
    }
  }

  lemma {:induction false} TellsAlike(series: seq<CounterSummary>, rows: seq<C.Row>, unit: string, interval: int)
    requires TellsAll(series, rows) && C.InOrder(rows)
    ensures AllAlike(AsCounters(series), C.AllSummaries(rows, unit, interval))
  {
    hide C.Sessions, C.Session, C.Summaries, AsCounters, C.InOrder, C.Reset, C.Gapless;
    var keys := C.Sessions(rows);
    C.SummaryAt(keys, rows, unit, interval, 0);
    AsCounterAt(series, 0);
    forall i | 0 <= i < |series|
      ensures Alike(AsCounters(series)[i], C.AllSummaries(rows, unit, interval)[i])
              && AsCounters(series)[i].orderingComplete
    {
      C.SummaryAt(keys, rows, unit, interval, i);
      AsCounterAt(series, i);
    }
  }

  lemma {:induction false} AlikeAppend(xs: seq<C.Counter>, ys: seq<C.Counter>, xs': seq<C.Counter>, ys': seq<C.Counter>)
    requires AllAlike(xs, ys) && AllAlike(xs', ys')
    ensures AllAlike(xs + xs', ys + ys')
  {
  }

  lemma {:induction false} AlikeGrouped(xs: seq<C.Counter>, ys: seq<C.Counter>, key: string)
    requires AllAlike(xs, ys)
    ensures C.ItemSessions(xs) == C.ItemSessions(ys)
    ensures AllAlike(C.SessionItems(xs, key), C.SessionItems(ys, key))
  {
    if |xs| > 0 {
      AlikeGrouped(xs[..|xs| - 1], ys[..|ys| - 1], key);
    }
  }

  // Each summary begins at most one and a half intervals after the previous one ends.
  ghost predicate NearItems(items: seq<C.Counter>, interval: int) {
    forall i :: 0 < i < |items| ==> C.Near(items[i - 1].lastAt, items[i].firstAt, interval)
  }

  lemma {:induction false} AlikeCombined(key: string, xs: seq<C.Counter>, ys: seq<C.Counter>, interval: int)
    requires AllAlike(xs, ys) && |xs| > 0
    ensures var c := C.Combined(key, xs, interval);
            && Alike(c, C.Combined(key, ys, interval))
            && c.orderingComplete == NearItems(ys, interval)
            && c.delta == C.Delta(c.firstValue, c.lastValue, c.resetObserved, c.orderingComplete)
  {
    hide C.Near, C.CompleteAmong;
    assert C.AnyReset(xs) <==> C.AnyReset(ys) by {
      forall i | 0 <= i < |xs|
        ensures xs[i].resetObserved == ys[i].resetObserved
      {
        assert Alike(xs[i], ys[i]);
      }
    }
    assert C.Dropped(xs) <==> C.Dropped(ys) by {
      forall i | 0 < i < |xs|
        ensures (xs[i].firstValue < xs[i - 1].lastValue) == (ys[i].firstValue < ys[i - 1].lastValue)
      {
        assert Alike(xs[i], ys[i]) && Alike(xs[i - 1], ys[i - 1]);
      }
    }
    AlikeComplete(xs, ys, interval);
  }

  lemma {:induction false} AlikeComplete(xs: seq<C.Counter>, ys: seq<C.Counter>, interval: int)
    requires AllAlike(xs, ys)
    ensures C.CompleteAmong(xs, interval) == NearItems(ys, interval)
  {
    hide C.Near;
    forall i | 0 < i < |xs|
      ensures C.Near(xs[i - 1].lastAt, xs[i].firstAt, interval) == C.Near(ys[i - 1].lastAt, ys[i].firstAt, interval)
    {
      assert Alike(xs[i], ys[i]) && Alike(xs[i - 1], ys[i - 1]);
    }
  }

  // ---------- gaps inside the parts and between them ----------

  // No two neighbouring readings of the session inside one part are too far apart.
  ghost predicate NearInside(parts: seq<seq<C.Row>>, key: string, interval: int) {
    forall i :: 0 <= i < |parts| ==> C.Gapless(C.Session(parts[i], key), interval)
  }

  // Nor are the first reading of the session in a part and the last one before that part.
  ghost predicate NearAcross(parts: seq<seq<C.Row>>, key: string, interval: int) {
    |parts| > 0 ==>
      var n := |parts| - 1;
      var x, y := C.Session(C.Flatten(parts[..n]), key), C.Session(parts[n], key);
      && NearAcross(parts[..n], key, interval)
      && (|x| > 0 && |y| > 0 ==> C.Near(x[|x| - 1].at, y[0].at, interval))
  }

  lemma {:induction false} GaplessParts(parts: seq<seq<C.Row>>, key: string, interval: int)
    ensures C.Gapless(C.Session(C.Flatten(parts), key), interval)
        <==> NearInside(parts, key, interval) && NearAcross(parts, key, interval)
  {
    hide C.Session, C.Gapless, C.Near;
    if |parts| == 0 {
      NoGaps(key, interval);
    } else {
      var n := |parts| - 1;
      var x, y := C.Session(C.Flatten(parts[..n]), key), C.Session(parts[n], key);
      GaplessParts(parts[..n], key, interval);
      C.SessionAppend(C.Flatten(parts[..n]), parts[n], key);
      InsideLast(parts, key, interval);
      NoGaps(key, interval);
      assert |x| == 0 ==> x + y == y;
      assert |y| == 0 ==> x + y == x;
      if |x| > 0 && |y| > 0 {
        C.GaplessSplit(x, y, interval);
      }
    }
  }

  lemma {:induction false} NoGaps(key: string, interval: int)
    ensures C.Gapless([], interval) && C.Session([], key) == []
  {
  }

  lemma {:induction false} InsideLast(parts: seq<seq<C.Row>>, key: string, interval: int)
    requires |parts| > 0
    ensures NearInside(parts, key, interval)
        <==> NearInside(parts[..|parts| - 1], key, interval) && C.Gapless(C.Session(parts[|parts| - 1], key), interval)
  {
    hide C.Session, C.Gapless;
  }

  // ---------- summaries of parts ----------

  ghost function PartSummaries(parts: seq<seq<C.Row>>, unit: string, interval: int): seq<C.Counter> {
    if |parts| == 0 then []
    else PartSummaries(parts[..|parts| - 1], unit, interval) + C.AllSummaries(parts[|parts| - 1], unit, interval)
  }

  lemma {:induction false} PartsStand(parts: seq<seq<C.Row>>, unit: string, interval: int)
    requires C.InOrder(C.Flatten(parts))
    ensures C.StandsFor(PartSummaries(parts, unit, interval), C.Flatten(parts), unit, interval)
  {
    hide C.AllSummaries, C.InOrder, C.StandsFor;
    if |parts| == 0 {
      C.NothingStands(unit, interval);
    } else {
      var n := |parts| - 1;
      C.PartInOrder(C.Flatten(parts[..n]), parts[n]);
      PartsStand(parts[..n], unit, interval);
      C.StandsForMore(PartSummaries(parts[..n], unit, interval), C.Flatten(parts[..n]), parts[n], unit, interval);
    }
  }

  lemma {:induction false} AcrossParts(parts: seq<seq<C.Row>>, key: string, unit: string, interval: int)
    requires C.InOrder(C.Flatten(parts))
    ensures NearItems(C.SessionItems(PartSummaries(parts, unit, interval), key), interval)
        <==> NearAcross(parts, key, interval)
  {
    hide C.Session, C.Sessions, C.SessionItems, C.ItemSessions, C.AllSummaries, C.InOrder, C.Near, C.Summary, NearItems;
    if |parts| == 0 {
      NoItems(key, interval);
    } else {
      var n := |parts| - 1;
      var before, last := C.Flatten(parts[..n]), parts[n];
      C.PartInOrder(before, last);
      AcrossParts(parts[..n], key, unit, interval);
      var items, more := PartSummaries(parts[..n], unit, interval), C.AllSummaries(last, unit, interval);
      C.ItemsAppend(items, more, key);
      C.AllSummariesGrouped(last, unit, interval, key);
      if key in C.Sessions(last) {
        LastItem(parts[..n], key, unit, interval);
        NearItemsAppend(C.SessionItems(items, key), C.Summary(key, C.Session(last, key), unit, interval), interval);
        C.SummaryTimes(key, C.Session(last, key), unit, interval);
      } else {
        assert C.SessionItems(items, key) + [] == C.SessionItems(items, key);
      }
    }
  }

  lemma {:induction false} NoItems(key: string, interval: int)
    ensures NearItems(C.SessionItems([], key), interval)
  {
  }

  lemma {:induction false} NearItemsAppend(items: seq<C.Counter>, s: C.Counter, interval: int)
    ensures NearItems(items + [s], interval)
        <==> NearItems(items, interval) && (|items| > 0 ==> C.Near(items[|items| - 1].lastAt, s.firstAt, interval))
  {
    hide C.Near;
    var all := items + [s];
    assert forall i :: 0 <= i < |items| ==> all[i] == items[i];
    assert all[|items|] == s;
    if NearItems(all, interval) {
      forall i | 0 < i < |items|
        ensures C.Near(items[i - 1].lastAt, items[i].firstAt, interval)
      {
        assert C.Near(all[i - 1].lastAt, all[i].firstAt, interval);
      }
      assert |items| > 0 ==> C.Near(all[|items| - 1].lastAt, all[|items|].firstAt, interval);
    }
  }

  // The last summary of a session ends with the session's last reading.
  lemma {:induction false} LastItem(parts: seq<seq<C.Row>>, key: string, unit: string, interval: int)
    requires C.InOrder(C.Flatten(parts))
    ensures var items := C.SessionItems(PartSummaries(parts, unit, interval), key);
            var rows := C.Session(C.Flatten(parts), key);
            && (|items| > 0 <==> |rows| > 0)
            && (|rows| > 0 ==> items[|items| - 1].lastAt == rows[|rows| - 1].at)
  {
    hide C.Session, C.Sessions, C.SessionItems, C.ItemSessions, C.InOrder, C.Reset, C.Gapless, C.ResetAmong,
      C.CompleteAmong;
    var all, rows := PartSummaries(parts, unit, interval), C.Flatten(parts);
    PartsStand(parts, unit, interval);
    C.SessionInOrder(rows, key);
    C.ItemsAppend(all, [], key);
    if key in C.Sessions(rows) {
      assert C.SessionStands(all, rows, key, unit, interval);
    }
  }

  // ---------- joining ----------

  lemma {:induction false} JoinedAt(keys: seq<string>, items: seq<C.Counter>, interval: int, i: nat)
    requires forall key :: key in keys ==> key in C.ItemSessions(items)
    ensures |C.Joined(keys, items, interval)| == |keys|
    ensures i < |keys| ==> |C.SortedItems(items, keys[i])| > 0
    ensures i < |keys| ==>
            C.Joined(keys, items, interval)[i] == C.Combined(keys[i], C.SortedItems(items, keys[i]), interval)
  {
    hide C.ItemSessions, C.SortedItems, C.Combined;
    if |keys| > 0 {
      JoinedAt(keys[..|keys| - 1], items, interval, i);
      C.SortedItemsExist(items, keys[|keys| - 1]);
    }
  }

  // How a joined counter compares with the summary of the same session's readings.
  ghost predicate Compares(joined: C.Counter, raw: C.Counter, inside: bool, across: bool) {
    && Alike(joined, raw)
    && raw.orderingComplete == (inside && across) && joined.orderingComplete == across
    && joined.delta == C.Delta(joined.firstValue, joined.lastValue, joined.resetObserved, across)
    && raw.delta == C.Delta(raw.firstValue, raw.lastValue, raw.resetObserved, raw.orderingComplete)
  }

  lemma {:induction false} SessionCompares(items: seq<C.Counter>, parts: seq<seq<C.Row>>, key: string, unit: string,
      interval: int)
    requires C.InOrder(C.Flatten(parts)) && AllAlike(items, PartSummaries(parts, unit, interval))
    requires key in C.Sessions(C.Flatten(parts))
    ensures |C.SortedItems(items, key)| > 0 && |C.Session(C.Flatten(parts), key)| > 0
    ensures Compares(C.Combined(key, C.SortedItems(items, key), interval),
                     C.Summary(key, C.Session(C.Flatten(parts), key), unit, interval),
                     NearInside(parts, key, interval), NearAcross(parts, key, interval))
  {
    hide C.Session, C.Sessions, C.SessionItems, C.ItemSessions, C.InOrder, C.Reset, C.Gapless, C.Combined, C.Flatten,
      NearInside, NearAcross, NearItems, PartSummaries, C.Near;
    var ys := PartSummaries(parts, unit, interval);
    PartsStand(parts, unit, interval);
    AlikeGrouped(items, ys, key);
    assert C.SessionStands(ys, C.Flatten(parts), key, unit, interval);
    var own := C.SessionItems(items, key);
    SameOrder(own, C.SessionItems(ys, key));
    C.ItemsSortedAlready(own);
    AlikeCombined(key, own, C.SessionItems(ys, key), interval);
    AcrossParts(parts, key, unit, interval);
    GaplessParts(parts, key, interval);
  }

  lemma {:induction false} SameOrder(xs: seq<C.Counter>, ys: seq<C.Counter>)
    requires AllAlike(xs, ys) && C.ItemsInOrder(ys)
    ensures C.ItemsInOrder(xs)
  {
    forall i, j | 0 <= i < j < |xs|
      ensures xs[i].firstAt <= xs[j].firstAt
    {
      assert Alike(xs[i], ys[i]) && Alike(xs[j], ys[j]);
    }
  }

  ghost predicate AllCompare(joined: seq<C.Counter>, raw: seq<C.Counter>, parts: seq<seq<C.Row>>, interval: int) {
    && |joined| == |raw|
    && forall i :: 0 <= i < |raw| ==>
         Compares(joined[i], raw[i], NearInside(parts, raw[i].boot, interval), NearAcross(parts, raw[i].boot, interval))
  }

  lemma {:induction false} JoinedCompares(items: seq<C.Counter>, parts: seq<seq<C.Row>>, unit: string, interval: int)
    requires C.InOrder(C.Flatten(parts)) && AllAlike(items, PartSummaries(parts, unit, interval))
    ensures AllCompare(C.JoinAll(items, interval), C.AllSummaries(C.Flatten(parts), unit, interval), parts, interval)
  {
    hide C.Session, C.Sessions, C.SortedItems, C.ItemSessions, C.InOrder, C.Combined, C.Flatten, C.Reset, C.Gapless,
      NearInside, NearAcross, PartSummaries, StableSort.Sort, AllAlike, C.Joined, C.Summaries;
    var rows := C.Flatten(parts);
    var keys, raw := C.Sessions(rows), C.AllSummaries(rows, unit, interval);
    PartsStand(parts, unit, interval);
    AlikeGrouped(items, PartSummaries(parts, unit, interval), "");
    var joined := C.Joined(keys, items, interval);
    JoinedAt(keys, items, interval, 0);
    C.SummaryAt(keys, rows, unit, interval, 0);
    forall i | 0 <= i < |keys|
      ensures Compares(joined[i], raw[i], NearInside(parts, raw[i].boot, interval),
                       NearAcross(parts, raw[i].boot, interval))
    {
      JoinedAt(keys, items, interval, i);
      C.SummaryAt(keys, rows, unit, interval, i);
      SessionCompares(items, parts, keys[i], unit, interval);
    }
    C.SummariesInOrder(rows, unit, interval);
    ComparedOrder(joined, raw, parts, interval);
    C.ItemsSortedAlready(joined);
  }

  lemma {:induction false} ComparedOrder(joined: seq<C.Counter>, raw: seq<C.Counter>, parts: seq<seq<C.Row>>,
      interval: int)
    requires AllCompare(joined, raw, parts, interval) && C.ItemsInOrder(raw)
    ensures C.ItemsInOrder(joined)
  {
    hide NearInside, NearAcross;
    forall i, j | 0 <= i < j < |joined|
      ensures joined[i].firstAt <= joined[j].firstAt
    {
      assert Alike(joined[i], raw[i]) && Alike(joined[j], raw[j]);
    }
  }

  // ---------- buckets of observations ----------

  // The bucket has the counters that folding the observations gives.
  ghost predicate HasCounters(b: Bucket, obs: seq<Observation>, g: Granularity, intervalMs: int)
    requires intervalMs > 0
  {
    var fold := BucketFold(obs, g, intervalMs);
    fold.Some? && fold.value.Some? && b.counters == fold.value.value.counters
  }

  // A day rebuilt from its hourly buckets has them too.
  lemma {:induction false} RolledUpCounters(obs: seq<Observation>, day: int, intervalMs: int)
    requires intervalMs > 0 && OneDay(obs, day) && |obs| > 0
    requires HourlyFold(obs, intervalMs).Some? && Summarize(HourlyFold(obs, intervalMs).value, day, intervalMs).Some?
    ensures var rolledUp := Summarize(HourlyFold(obs, intervalMs).value, day, intervalMs).value;
            rolledUp.Some? && HasCounters(rolledUp.value, obs, Daily, intervalMs) && OneBucket(obs, Daily)
  {
    hide HourlyFold, BucketFold, Summarize, BucketStart;
    RollUp(obs, day, intervalMs);
    forall i | 0 <= i < |obs|
      ensures BucketStart(obs[i].observedAt, Daily) == day
    {
      DayStart(obs[i].observedAt, day);
    }
  }

  // Each bucket has the counters of its own observations.
  ghost predicate Built(buckets: seq<Bucket>, parts: seq<seq<Observation>>, gs: seq<Granularity>, intervalMs: int)
    requires intervalMs > 0
  {
    && |buckets| == |parts| == |gs|
    && forall i :: 0 <= i < |parts| ==>
         OneBucket(parts[i], gs[i]) && HasCounters(buckets[i], parts[i], gs[i], intervalMs)
  }

  function PartReadings(parts: seq<seq<Observation>>, name: string): seq<seq<C.Row>> {
    if |parts| == 0 then [] else PartReadings(parts[..|parts| - 1], name) + [Readings(parts[|parts| - 1], name)]
  }

  lemma {:induction false} ReadAllAppend(x: seq<Observation>, y: seq<Observation>)
    ensures ReadAll(x + y) == ReadAll(x) + ReadAll(y)
  {
    if |y| == 0 {
      assert x + y == x;
    } else {
      assert (x + y)[..|x + y| - 1] == x + y[..|y| - 1];
      ReadAllAppend(x, y[..|y| - 1]);
    }
  }

  lemma {:induction false} ReadingsOfParts(parts: seq<seq<Observation>>, name: string)
    ensures C.Flatten(PartReadings(parts, name)) == Readings(C.Flatten(parts), name)
  {
    hide C.Rows;
    if |parts| == 0 {
      C.NoRows(name);
    } else {
      var n := |parts| - 1;
      ReadingsOfParts(parts[..n], name);
      ReadAllAppend(C.Flatten(parts[..n]), parts[n]);
      C.RowsAppend(ReadAll(C.Flatten(parts[..n])), ReadAll(parts[n]), name);
      var all := PartReadings(parts, name);
      assert all[..n] == PartReadings(parts[..n], name) by {
        PartCount(parts[..n], name);
      }
    }
  }

  lemma {:induction false} PartCount(parts: seq<seq<Observation>>, name: string)
    ensures |PartReadings(parts, name)| == |parts|
  {
    if |parts| > 0 {
      PartCount(parts[..|parts| - 1], name);
    }
  }

  lemma {:induction false} BucketAlike(b: Bucket, obs: seq<Observation>, g: Granularity, intervalMs: int, name: string,
      unit: string)
    requires intervalMs > 0 && OneBucket(obs, g) && IsCounter(obs, name)
    requires HasCounters(b, obs, g, intervalMs)
    ensures AllAlike(AsCounters(CountersOf(b, name)), C.AllSummaries(Readings(obs, name), unit, intervalMs))
  {
    hide OneBucket, IsCounter, BucketFold, AllAlike, C.AllSummaries, Readings, TellsAll, C.InOrder;
    FoldTells(obs, g, intervalMs, name);
    TellsAlike(CountersOf(b, name), Readings(obs, name), unit, intervalMs);
  }

  lemma {:induction false} BucketsAlike(buckets: seq<Bucket>, parts: seq<seq<Observation>>, gs: seq<Granularity>,
      intervalMs: int, name: string, unit: string)
    requires intervalMs > 0 && Built(buckets, parts, gs, intervalMs) && IsCounter(C.Flatten(parts), name)
    ensures AllAlike(C.Flatten(CounterLists(buckets, name)), PartSummaries(PartReadings(parts, name), unit, intervalMs))
  {
    hide OneBucket, HasCounters, AllAlike, C.AllSummaries, Readings, AsCounters, CountersOf;
    if |parts| == 0 {
      AlikeNothing();
    } else {
      var n := |parts| - 1;
      CounterParts(C.Flatten(parts[..n]), parts[n], name);
      BucketsAlike(buckets[..n], parts[..n], gs[..n], intervalMs, name, unit);
      BucketAlike(buckets[n], parts[n], gs[n], intervalMs, name, unit);
      AlikeAppend(C.Flatten(CounterLists(buckets[..n], name)),
                  PartSummaries(PartReadings(parts[..n], name), unit, intervalMs),
                  AsCounters(CountersOf(buckets[n], name)), C.AllSummaries(Readings(parts[n], name), unit, intervalMs));
      var lists, rows := CounterLists(buckets, name), PartReadings(parts, name);
      assert lists[..|lists| - 1] == CounterLists(buckets[..n], name);
      assert rows[..|rows| - 1] == PartReadings(parts[..n], name);
    }
  }

  lemma {:induction false} AlikeNothing()
    ensures AllAlike([], [])
  {
  }

  lemma {:induction false} CounterParts(x: seq<Observation>, y: seq<Observation>, name: string)
    requires IsCounter(x + y, name)
    ensures IsCounter(x, name) && IsCounter(y, name)
  {
    assert forall i :: 0 <= i < |x| ==> (x + y)[i] == x[i];
    assert forall i :: 0 <= i < |y| ==> (x + y)[|x| + i] == y[i];
  }

  lemma {:induction false} ReadInOrder(obs: seq<Observation>, i: nat)
    ensures |ReadAll(obs)| == |obs|
    ensures i < |obs| ==> ReadAll(obs)[i] == ReadOne(obs[i])
  {
    hide Read;
    if |obs| > 0 {
      ReadInOrder(obs[..|obs| - 1], i);
    }
  }

  lemma {:induction false} ReadObservedInOrder(obs: seq<Observation>)
    requires TimeOrder(obs)
    ensures C.ObservedInOrder(ReadAll(obs))
  {
    hide Read, ReadAll;
    ReadInOrder(obs, 0);
    forall i, j | 0 <= i < j < |obs|
      ensures ReadAll(obs)[i].observedAt <= ReadAll(obs)[j].observedAt
    {
      ReadInOrder(obs, i);
      ReadInOrder(obs, j);
    }
  }

  /**
   The counters joined from a list of hourly and daily buckets, each with the counters of its own
   observations, against the series of the raw readings. Sessions, their order, first and last
   readings, resets and sources are always the same. The ordering of a session agrees exactly when no
   two neighbouring readings inside one bucket are too far apart, or readings on both sides of a
   bucket boundary already are; its delta agrees exactly then, or after a reset. The raw series
   exists unless a session mixes sources.
   */
  lemma {:induction false} BucketsAgainstReadings(buckets: seq<Bucket>, parts: seq<seq<Observation>>,
      gs: seq<Granularity>, intervalMs: int, name: string, unit: string)
    requires intervalMs > 0 && Built(buckets, parts, gs, intervalMs)
    requires TimeOrder(C.Flatten(parts)) && IsCounter(C.Flatten(parts), name)
    ensures var rows := Readings(C.Flatten(parts), name);
            var joined := C.JoinAll(C.Flatten(CounterLists(buckets, name)), intervalMs);
            var raw := C.AllSummaries(rows, unit, intervalMs);
            && AllCompare(joined, raw, PartReadings(parts, name), intervalMs)
            && C.RawSeries(ReadAll(C.Flatten(parts)), name, unit, intervalMs)
               == if C.Consistent(C.Sessions(rows), rows) then Success(raw) else Failure(C.Inconsistent)
    ensures var joined := C.JoinAll(C.Flatten(CounterLists(buckets, name)), intervalMs);
            var raw := C.AllSummaries(Readings(C.Flatten(parts), name), unit, intervalMs);
            && |joined| == |raw|
            && forall i :: 0 <= i < |raw| ==>
                 var inside := NearInside(PartReadings(parts, name), raw[i].boot, intervalMs);
                 var across := NearAcross(PartReadings(parts, name), raw[i].boot, intervalMs);
                 && (joined[i].orderingComplete == raw[i].orderingComplete <==> inside || !across)
                 && (joined[i].delta == raw[i].delta <==> inside || !across || raw[i].resetObserved)
  {
    hide Built, IsCounter, AllAlike, C.AllSummaries, C.InOrder, NearInside, NearAcross, PartSummaries, PartReadings,
      C.Flatten, C.Sessions, C.Consistent, C.RawSeries, C.JoinAll, CounterLists, ReadAll, C.Rows;
    BucketsAlike(buckets, parts, gs, intervalMs, name, unit);
    ReadingsOfParts(parts, name);
    ReadObservedInOrder(C.Flatten(parts));
    C.RawSeriesInOrder(ReadAll(C.Flatten(parts)), name, unit, intervalMs);
    JoinedCompares(C.Flatten(CounterLists(buckets, name)), PartReadings(parts, name), unit, intervalMs);
  }

  // ---------- a gap that a bucket hides ----------

  const METER := Device("t", "s", "d", "p")

  function MeterReading(at: int, value: real): Observation {
    Observation(METER, at, "boot", [Metric("energy", Some(value), "Wh", Counter, "meter")])
  }

  // Two readings of one session in one hour, forty minutes apart.
  function FortyMinutes(): seq<Observation> { [MeterReading(0, 1.0), MeterReading(2400000, 5.0)] }

  ghost predicate IsMeter(b: Bucket) {
    var series := CountersOf(b, "energy");
    b.startAt == 0 && |series| == 1 && series[0].bootSessionId == "boot" && series[0].unit == "Wh"
      && series[0].source == "meter"
  }

  // A reading of the first hour is accepted.
  lemma {:induction false} MeterStep(previous: Option<Bucket>, at: int, value: real)
    requires 0 <= at < HOUR_MS && (previous.Some? ==> IsMeter(previous.value))
    ensures var r := Apply(previous, MeterReading(at, value), Hourly, 60000);
            r.Some? && IsMeter(r.value)
  {
    var o := MeterReading(at, value);
    var m := o.metrics[0];
    assert o.metrics[..0] == [] && BucketStart(at, Hourly) == 0;
    var prior := Prior(previous, at, Hourly);
    assert prior == previous;
    var s := RecordsOf(prior);
    var series := CountersIn(s, "energy");
    OneSorted(series, m, at);
    var expected := ExpectedSamples(FirstAt(prior, at), LastAt(prior, at), 60000);
    assert StepMetrics(s, o.metrics[..0], "boot", at, expected) == Some(s);
    assert StepMetrics(s, o.metrics, "boot", at, expected) == StepMetric(s, m, "boot", at, expected);
  }

  lemma {:induction false} OneSorted(series: seq<CounterSummary>, m: Metric, at: int)
    requires m.value.Some? && m.unit == "Wh" && m.source == "meter" && |series| <= 1
    requires |series| == 1 ==>
             series[0].bootSessionId == "boot" && series[0].unit == "Wh" && series[0].source == "meter"
    ensures var r := StepSeries(series, "boot", m, at);
            && r.Some? && |r.value| == 1
            && r.value[0].bootSessionId == "boot" && r.value[0].unit == "Wh" && r.value[0].source == "meter"
  {
    var r := PlainStep(series, "boot", m, at).value;
    StableSort.SortOfSorted(r, FirstTime());
  }

  lemma {:induction false} FortyMinutesFold()
    ensures var fold := BucketFold(FortyMinutes(), Hourly, 60000);
            fold.Some? && fold.value.Some?
  {
    hide Apply, IsMeter;
    var obs := FortyMinutes();
    assert obs[..1] == [obs[0]] && obs[..1][..0] == [];
    var empty := obs[..1][..0];
    assert BucketFold(empty, Hourly, 60000) == Some(None);
    MeterStep(None, 0, 1.0);
    var first := BucketFold(obs[..1], Hourly, 60000);
    assert first.value == Apply(None, obs[0], Hourly, 60000);
    MeterStep(first.value, 2400000, 5.0);
  }

  lemma {:induction false} FortyMinutesRead()
    ensures Readings(FortyMinutes(), "energy")
         == [C.Row("boot", 1.0, 0, "meter"), C.Row("boot", 5.0, 2400000, "meter")]
  {
    var obs := FortyMinutes();
    ReadingsLast(obs, "energy");
    ReadingsLast(obs[..1], "energy");
    assert obs[..1][..0] == [];
    ReadRow(ReadOne(obs[0]), obs[0].metrics, "energy");
    ReadRow(ReadOne(obs[1]), obs[1].metrics, "energy");
  }

  lemma {:induction false} NoSessions()
    ensures C.Sessions([]) == [] && C.Session([], "boot") == []
  {
  }

  lemma {:induction false} TwoRows(rows: seq<C.Row>)
    requires |rows| == 2 && rows[0].boot == "boot" && rows[1].boot == "boot" && rows[0].source == rows[1].source
    requires rows[0].at <= rows[1].at
    ensures C.Sessions(rows) == ["boot"] && C.Session(rows, "boot") == rows && C.Consistent(["boot"], rows)
  {
    hide StableSort.Sort, C.Sessions, C.Session;
    var one := [rows[0]];
    assert [] + [rows[0]] == one && one + [rows[1]] == rows;
    assert C.Sessions([]) == [] && C.Session([], "boot") == [] by {
      NoSessions();
    }
    OwnSession([], rows[0]);
    OwnSession(one, rows[1]);
    C.SessionInOrder(rows, "boot");
  }

  lemma {:induction false} OnePart(rows: seq<C.Row>, key: string, interval: int)
    ensures NearInside([rows], key, interval) == C.Gapless(C.Session(rows, key), interval)
    ensures NearAcross([rows], key, interval)
  {
    hide C.Gapless;
    var parts := [rows];
    assert parts[..0] == [] && C.Session([], key) == [];
    assert parts[0] == rows;
  }

  lemma {:induction false} TwoReadings(rows: seq<C.Row>)
    requires rows == [C.Row("boot", 1.0, 0, "meter"), C.Row("boot", 5.0, 2400000, "meter")]
    ensures var c := C.Summary("boot", rows, "Wh", 60000);
            && !C.Gapless(rows, 60000) && !c.resetObserved && c.firstValue == 1.0 && c.lastValue == 5.0
            && C.AllSummaries(rows, "Wh", 60000) == [c] && c.boot == "boot"
            && C.Consistent(C.Sessions(rows), rows)
  {
    hide C.Sessions, C.Session, C.Consistent, C.Summaries;
    TwoRows(rows);
    C.SummaryAt(["boot"], rows, "Wh", 60000, 0);
    assert !C.Near(rows[0].at, rows[1].at, 60000);
  }

  lemma {:induction false} OneBucketOnly(obs: seq<Observation>, name: string)
    ensures C.Flatten([obs]) == obs && PartReadings([obs], name) == [Readings(obs, name)]
  {
    assert [obs][..0] == [];
  }

  lemma {:induction false} FortyMinutesBucket()
    ensures OneBucket(FortyMinutes(), Hourly) && IsCounter(FortyMinutes(), "energy")
  {
  }

  /**
   The hourly bucket calls the ordering complete and gives a delta of 4; the readings themselves are
   incomplete and have none.
   */
  lemma {:induction false} HiddenGap()
    ensures var obs, fold := FortyMinutes(), BucketFold(FortyMinutes(), Hourly, 60000);
            && fold.Some? && fold.value.Some?
            && var joined := C.JoinAll(C.Flatten(CounterLists([fold.value.value], "energy")), 60000);
            var raw := C.RawSeries(ReadAll(obs), "energy", "Wh", 60000);
            && |joined| == 1 && joined[0].orderingComplete && joined[0].delta == Some(4.0)
            && raw.Success? && |raw.value| == 1 && !raw.value[0].orderingComplete && raw.value[0].delta == None
  {
    hide C.JoinAll, C.RawSeries, BucketFold, Readings, C.Flatten, CounterLists, C.AllSummaries, C.Sessions,
      C.Consistent, PartReadings, FortyMinutes, ReadAll, NearInside, NearAcross, C.Gapless, C.Session, OneBucket,
      TimeOrder, IsCounter, C.Summary;
    var obs := FortyMinutes();
    FortyMinutesFold();
    FortyMinutesBucket();
    FortyMinutesRead();
    OneBucketOnly(obs, "energy");
    var b := BucketFold(obs, Hourly, 60000).value.value;
    assert Built([b], [obs], [Hourly], 60000);
    BucketsAgainstReadings([b], [obs], [Hourly], 60000, "energy", "Wh");
    var rows := Readings(obs, "energy");
    TwoReadings(rows);
    TwoRows(rows);
    OnePart(rows, "boot", 60000);
  }
}
