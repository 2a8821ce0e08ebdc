/**
 Counter series of the device health query: raw readings summarised by boot session, and summaries
 of parts joined again. Times are milliseconds, counter values exact reals.
 */
module CounterSeries {
  import opened Wrappers
  import opened StableSort

  // value is None where the source has null or a number that is not finite.
  datatype Metric = Metric(name: string, value: Option<real>, source: string)

  datatype Observation = Observation(bootSessionId: string, observedAt: int, metrics: seq<Metric>)

  datatype Row = Row(boot: string, value: real, at: int, source: string)

  datatype Counter = Counter(boot: string, firstValue: real, firstAt: int, lastValue: real, lastAt: int,
                             delta: Option<real>, resetObserved: bool, orderingComplete: bool,
                             unit: string, source: string)

  datatype Error = Inconsistent

  // ---------- grouping by boot session, in order of first appearance ----------

  function Keys<T>(items: seq<T>, boot: T -> string): seq<string> {
    if |items| == 0 then []
    else AddKey(Keys(items[..|items| - 1], boot), boot(items[|items| - 1]))
  }

  function AddKey(keys: seq<string>, key: string): seq<string> { if key in keys then keys else keys + [key] }

  function Of<T>(items: seq<T>, boot: T -> string, key: string): seq<T> {
    if |items| == 0 then []
    else
      var last := items[|items| - 1];
      Of(items[..|items| - 1], boot, key) + if boot(last) == key then [last] else []
  }

  // The Map of the source: its keys in insertion order and its lists.
  method GroupByBoot<T>(items: seq<T>, boot: T -> string) returns (keys: seq<string>, groups: map<string, seq<T>>)
    ensures keys == Keys(items, boot)
    ensures forall key :: key in groups <==> key in keys
    ensures forall key :: key in keys ==> groups[key] == Of(items, boot, key)
  {
    keys, groups := [], map[];
    for i := 0 to |items|
      invariant keys == Keys(items[..i], boot)
      invariant forall key :: key in groups <==> key in keys
      invariant forall key :: Of(items[..i], boot, key) == if key in groups then groups[key] else []
    {
      assert items[..i + 1][..i] == items[..i];
      var key := boot(items[i]);
      var list := if key in groups then groups[key] else [];
      groups := groups[key := list + [items[i]]];
      keys := AddKey(keys, key);
    }
    assert items[..|items|] == items;
  }

  lemma {:induction false} OfAppend<T>(x: seq<T>, y: seq<T>, boot: T -> string, key: string)
    ensures Of(x + y, boot, key) == Of(x, boot, key) + Of(y, boot, key)
  {
    if |y| == 0 {
      assert x + y == x;
    } else {
      assert (x + y)[..|x + y| - 1] == x + y[..|y| - 1];
      OfAppend(x, y[..|y| - 1], boot, key);
    }
  }

  function AddKeys(keys: seq<string>, more: seq<string>): seq<string> {
    if |more| == 0 then keys else AddKey(AddKeys(keys, more[..|more| - 1]), more[|more| - 1])
  }

  lemma {:induction false} AddedKeys(keys: seq<string>, more: seq<string>, key: string)
    ensures key in AddKeys(keys, more) <==> key in keys || key in more
  {
    if |more| > 0 {
      AddedKeys(keys, more[..|more| - 1], key);
      assert more == more[..|more| - 1] + [more[|more| - 1]];
    }
  }

  lemma {:induction false} KeysAppend<T>(x: seq<T>, y: seq<T>, boot: T -> string)
    ensures Keys(x + y, boot) == AddKeys(Keys(x, boot), Keys(y, boot))
  {
    if |y| == 0 {
      assert x + y == x;
    } else {
      var front, key := y[..|y| - 1], boot(y[|y| - 1]);
      assert (x + y)[..|x + y| - 1] == x + front;
      KeysAppend(x, front, boot);
      AddedKeys(Keys(x, boot), Keys(front, boot), key);
      if key !in Keys(front, boot) {
        assert Keys(y, boot)[..|Keys(y, boot)| - 1] == Keys(front, boot);
      }
    }
  }

  lemma {:induction false} KeysAreDistinct<T>(items: seq<T>, boot: T -> string)
    ensures forall i, j :: 0 <= i < j < |Keys(items, boot)| ==> Keys(items, boot)[i] != Keys(items, boot)[j]
  {
    if |items| > 0 {
      KeysAreDistinct(items[..|items| - 1], boot);
    }
  }

  lemma {:induction false} KeysHaveItems<T>(items: seq<T>, boot: T -> string, key: string)
    ensures key in Keys(items, boot) <==> |Of(items, boot, key)| > 0
    ensures forall x :: x in Of(items, boot, key) ==> x in items && boot(x) == key
  {
    if |items| > 0 {
      var front, last := items[..|items| - 1], items[|items| - 1];
      assert items == front + [last];
      KeysHaveItems(front, boot, key);
    }
  }

  // ---------- raw readings ----------

  function RowBoot(): Row -> string { (r: Row) => r.boot }

  function RowTime(): Row -> int { (r: Row) => r.at }

  function CounterBoot(): Counter -> string { (c: Counter) => c.boot }

  function CounterTime(): Counter -> int { (c: Counter) => c.firstAt }

  function MetricRows(o: Observation, metrics: seq<Metric>, name: string): seq<Row> {
    if |metrics| == 0 then []
    else
      var m := metrics[|metrics| - 1];
      MetricRows(o, metrics[..|metrics| - 1], name)
      + if m.name == name && m.value.Some? then [Row(o.bootSessionId, m.value.value, o.observedAt, m.source)] else []
  }

  function Rows(os: seq<Observation>, name: string): seq<Row> {
    if |os| == 0 then []
    else Rows(os[..|os| - 1], name) + MetricRows(os[|os| - 1], os[|os| - 1].metrics, name)
  }

  // Values went down somewhere.
  predicate Reset(rows: seq<Row>) { exists i :: 0 < i < |rows| && rows[i].value < rows[i - 1].value }

  // At most one and a half expected intervals between neighbours.
  predicate Near(from: int, to: int, interval: int) { 2 * (to - from) <= 3 * interval }

  predicate Gapless(rows: seq<Row>, interval: int) {
    forall i :: 0 < i < |rows| ==> Near(rows[i - 1].at, rows[i].at, interval)
  }

  predicate OneSource(rows: seq<Row>) { forall i :: 0 <= i < |rows| ==> rows[i].source == rows[0].source }

  function Delta(first: real, last: real, resetObserved: bool, orderingComplete: bool): Option<real> {
    if resetObserved || !orderingComplete then None else Some(last - first)
  }

  function Summary(boot: string, rows: seq<Row>, unit: string, interval: int): Counter
    requires |rows| > 0
  {
    var first, last := rows[0], rows[|rows| - 1];
    var reset, gapless := Reset(rows), Gapless(rows, interval);
    Counter(boot, first.value, first.at, last.value, last.at, Delta(first.value, last.value, reset, gapless),
            reset, gapless, unit, first.source)
  }

  // The boot sessions, and the readings of one of them.
  function Sessions(rows: seq<Row>): seq<string> { Keys(rows, RowBoot()) }

  function Session(rows: seq<Row>, key: string): seq<Row> { Of(rows, RowBoot(), key) }

  function ItemSessions(items: seq<Counter>): seq<string> { Keys(items, CounterBoot()) }

  function SessionItems(items: seq<Counter>, key: string): seq<Counter> { Of(items, CounterBoot(), key) }

  function SortedRows(rows: seq<Row>, key: string): seq<Row> { Sort(Session(rows, key), RowTime()) }

  lemma {:induction false} SortedRowsExist(rows: seq<Row>, key: string)
    ensures key in Sessions(rows) ==> |SortedRows(rows, key)| > 0
  {
    KeysHaveItems(rows, RowBoot(), key);
    SortIsSorted(Session(rows, key), RowTime());
  }

  function Summaries(keys: seq<string>, rows: seq<Row>, unit: string, interval: int): seq<Counter>
    requires forall key :: key in keys ==> key in Sessions(rows)
  {
    if |keys| == 0 then []
    else
      var key := keys[|keys| - 1];
      SortedRowsExist(rows, key);
      Summaries(keys[..|keys| - 1], rows, unit, interval) + [Summary(key, SortedRows(rows, key), unit, interval)]
  }

  ghost predicate Consistent(keys: seq<string>, rows: seq<Row>) {
    forall key :: key in keys ==> OneSource(SortedRows(rows, key))
  }

  ghost function RawSeries(os: seq<Observation>, name: string, unit: string, interval: int)
    : Result<seq<Counter>, Error>
  {
    var rows := Rows(os, name);
    var keys := Sessions(rows);
    if Consistent(keys, rows) then Success(Sort(Summaries(keys, rows, unit, interval), CounterTime()))
    else Failure(Inconsistent)
  }

  method CollectRows(os: seq<Observation>, name: string) returns (rows: seq<Row>)
    ensures rows == Rows(os, name)
  {
    rows := [];
    for i := 0 to |os|
      invariant rows == Rows(os[..i], name)
    {
      assert os[..i + 1][..i] == os[..i];
      var o := os[i];
      ghost var before := rows;
      for k := 0 to |o.metrics|
        invariant rows == before + MetricRows(o, o.metrics[..k], name)
      {
        assert o.metrics[..k + 1][..k] == o.metrics[..k];
        var m := o.metrics[k];
        if m.name == name && m.value.Some? {
          rows := rows + [Row(o.bootSessionId, m.value.value, o.observedAt, m.source)];
        }
      }
      assert o.metrics[..|o.metrics|] == o.metrics;
    }
    assert os[..|os|] == os;
  }

  // The summary of one session's sorted readings.
  method Summarise(boot: string, rows: seq<Row>, unit: string, interval: int) returns (r: Result<Counter, Error>)
    requires |rows| > 0
    ensures r == if OneSource(rows) then Success(Summary(boot, rows, unit, interval)) else Failure(Inconsistent)
  {
    hide Reset, Gapless;
    if exists k :: 0 <= k < |rows| && rows[k].source != rows[0].source {
      return Failure(Inconsistent);
    }
    var first, last := rows[0], rows[|rows| - 1];
    var resetObserved, orderingComplete := Reset(rows), Gapless(rows, interval);
    return Success(Counter(boot, first.value, first.at, last.value, last.at,
                           if resetObserved || !orderingComplete then None else Some(last.value - first.value),
                           resetObserved, orderingComplete, unit, first.source));
  }

  method RawCounterSeries(os: seq<Observation>, name: string, unit: string, interval: int)
    returns (r: Result<seq<Counter>, Error>)
    ensures r == RawSeries(os, name, unit, interval)
  {
    hide Reset, Gapless, Keys, Of, Sort, Summary, OneSource;
    var rows := CollectRows(os, name);
    var keys, byBoot := GroupByBoot(rows, RowBoot());
    var out: seq<Counter> := [];
    for i := 0 to |keys|
      invariant out == Summaries(keys[..i], rows, unit, interval)
      invariant Consistent(keys[..i], rows)
    {
      var key := keys[i];
      assert key in keys;
      SortedRowsExist(rows, key);
      var counter :- Summarise(key, Sort(byBoot[key], RowTime()), unit, interval);
      assert keys[..i + 1][..i] == keys[..i];
      assert keys[..i + 1] == keys[..i] + [key];
      out := out + [counter];
    }
    assert keys[..|keys|] == keys;
    return Success(Sort(out, CounterTime()));
  }

  // ---------- joining summaries ----------

  predicate AnyReset(items: seq<Counter>) { exists i :: 0 <= i < |items| && items[i].resetObserved }

  predicate Dropped(items: seq<Counter>) { exists i :: 0 < i < |items| && items[i].firstValue < items[i - 1].lastValue }

  predicate ResetAmong(items: seq<Counter>) { AnyReset(items) || Dropped(items) }

  predicate CompleteAmong(items: seq<Counter>, interval: int) {
    forall i :: 0 <= i < |items| ==>
      items[i].orderingComplete && (i == 0 || Near(items[i - 1].lastAt, items[i].firstAt, interval))
  }

  predicate Agree(items: seq<Counter>) {
    forall i :: 0 <= i < |items| ==> items[i].unit == items[0].unit && items[i].source == items[0].source
  }

  function Combined(boot: string, items: seq<Counter>, interval: int): Counter
    requires |items| > 0
  {
    var first, last := items[0], items[|items| - 1];
    var reset, complete := ResetAmong(items), CompleteAmong(items, interval);
    Counter(boot, first.firstValue, first.firstAt, last.lastValue, last.lastAt,
            Delta(first.firstValue, last.lastValue, reset, complete), reset, complete, first.unit, first.source)
  }

  function SortedItems(items: seq<Counter>, key: string): seq<Counter> {
    Sort(SessionItems(items, key), CounterTime())
  }

  lemma {:induction false} SortedItemsExist(items: seq<Counter>, key: string)
    ensures key in ItemSessions(items) ==> |SortedItems(items, key)| > 0
  {
    KeysHaveItems(items, CounterBoot(), key);
    SortIsSorted(SessionItems(items, key), CounterTime());
  }

  function Joined(keys: seq<string>, items: seq<Counter>, interval: int): seq<Counter>
    requires forall key :: key in keys ==> key in ItemSessions(items)
  {
    if |keys| == 0 then []
    else
      var key := keys[|keys| - 1];
      SortedItemsExist(items, key);
      Joined(keys[..|keys| - 1], items, interval) + [Combined(key, SortedItems(items, key), interval)]
  }

  ghost predicate AllAgree(keys: seq<string>, items: seq<Counter>) {
    forall key :: key in keys ==> Agree(SortedItems(items, key))
  }

  ghost function JoinAll(items: seq<Counter>, interval: int): seq<Counter> {
    Sort(Joined(ItemSessions(items), items, interval), CounterTime())
  }

  ghost function MergeSeries(raw: seq<Counter>, aggregate: seq<Counter>, interval: int): Result<seq<Counter>, Error> {
    var items := aggregate + raw;
    if AllAgree(ItemSessions(items), items) then Success(JoinAll(items, interval)) else Failure(Inconsistent)
  }

  function Flatten<T>(parts: seq<seq<T>>): seq<T> {
    if |parts| == 0 then [] else Flatten(parts[..|parts| - 1]) + parts[|parts| - 1]
  }

  // One session's sorted summaries joined into one.
  method Combine(boot: string, items: seq<Counter>, interval: int) returns (c: Counter)
    requires |items| > 0
    ensures c == Combined(boot, items, interval)
  {
    hide ResetAmong, CompleteAmong;
    var first, last := items[0], items[|items| - 1];
    var resetObserved, orderingComplete := ResetAmong(items), CompleteAmong(items, interval);
    c := first.(boot := boot, lastValue := last.lastValue, lastAt := last.lastAt,
                delta := if resetObserved || !orderingComplete then None else Some(last.lastValue - first.firstValue),
                resetObserved := resetObserved, orderingComplete := orderingComplete);
  }

  method MergeCounterSeries(raw: seq<Counter>, aggregate: seq<Counter>, interval: int)
    returns (r: Result<seq<Counter>, Error>)
    ensures r == MergeSeries(raw, aggregate, interval)
  {
    hide Combined, Keys, Of, Sort;
    var items := aggregate + raw;
    var keys, byBoot := GroupByBoot(items, CounterBoot());
    var out: seq<Counter> := [];
    for i := 0 to |keys|
      invariant out == Joined(keys[..i], items, interval)
      invariant AllAgree(keys[..i], items)
    {
      var key := keys[i];
      assert key in keys;
      var sorted := Sort(byBoot[key], CounterTime());
      SortedItemsExist(items, key);
      if exists k :: 0 <= k < |sorted| && (sorted[k].unit != sorted[0].unit || sorted[k].source != sorted[0].source) {
        return Failure(Inconsistent);
      }
      var counter := Combine(key, sorted, interval);
      assert keys[..i + 1][..i] == keys[..i];
      assert keys[..i + 1] == keys[..i] + [key];
      out := out + [counter];
    }
    assert keys[..|keys|] == keys;
    return Success(Sort(out, CounterTime()));
  }

  // Joins the counters of a list of buckets; nothing is checked here.
  method BucketCounterSeries(buckets: seq<seq<Counter>>, interval: int) returns (out: seq<Counter>)
    ensures out == JoinAll(Flatten(buckets), interval)
  {
    hide Combined, Keys, Of, Sort;
    var items := Flatten(buckets);
    var keys, byBoot := GroupByBoot(items, CounterBoot());
    out := [];
    for i := 0 to |keys|
      invariant out == Joined(keys[..i], items, interval)
    {
      var key := keys[i];
      assert key in keys;
      SortedItemsExist(items, key);
      var counter := Combine(key, Sort(byBoot[key], CounterTime()), interval);
      assert keys[..i + 1][..i] == keys[..i];
      assert keys[..i + 1] == keys[..i] + [key];
      out := out + [counter];
    }
    assert keys[..|keys|] == keys;
    out := Sort(out, CounterTime());
  }

  // ---------- one boot session ----------

  lemma {:induction false} ResetSplit(x: seq<Row>, y: seq<Row>)
    requires |x| > 0 && |y| > 0
    ensures Reset(x + y) <==> Reset(x) || Reset(y) || y[0].value < x[|x| - 1].value
  {
    var z := x + y;
    if Reset(x) {
      var i :| 0 < i < |x| && x[i].value < x[i - 1].value;
      assert z[i].value < z[i - 1].value;
    }
    if Reset(y) {
      var i :| 0 < i < |y| && y[i].value < y[i - 1].value;
      assert z[|x| + i].value < z[|x| + i - 1].value;
    }
    if y[0].value < x[|x| - 1].value {
      assert z[|x|].value < z[|x| - 1].value;
    }
    if Reset(z) {
      var i :| 0 < i < |z| && z[i].value < z[i - 1].value;
      if i < |x| {
        assert x[i].value < x[i - 1].value;
      } else if i > |x| {
        assert y[i - |x|].value < y[i - |x| - 1].value;
      }
    }
  }

  lemma {:induction false} GaplessSplit(x: seq<Row>, y: seq<Row>, interval: int)
    requires |x| > 0 && |y| > 0
    ensures Gapless(x + y, interval) <==>
            Gapless(x, interval) && Gapless(y, interval) && Near(x[|x| - 1].at, y[0].at, interval)
  {
    hide Near;
    var z := x + y;
    if Gapless(z, interval) {
      forall i | 0 < i < |x|
        ensures Near(x[i - 1].at, x[i].at, interval)
      {
        assert z[i] == x[i] && z[i - 1] == x[i - 1];
      }
      forall i | 0 < i < |y|
        ensures Near(y[i - 1].at, y[i].at, interval)
      {
        assert z[|x| + i] == y[i] && z[|x| + i - 1] == y[i - 1];
      }
      assert z[|x|] == y[0] && z[|x| - 1] == x[|x| - 1];
    }
  }

  // A joined summary and one more, later one.
  function Join2(a: Counter, b: Counter, interval: int): Counter {
    var reset := a.resetObserved || b.resetObserved || b.firstValue < a.lastValue;
    var complete := a.orderingComplete && b.orderingComplete && Near(a.lastAt, b.firstAt, interval);
    Counter(a.boot, a.firstValue, a.firstAt, b.lastValue, b.lastAt,
            Delta(a.firstValue, b.lastValue, reset, complete), reset, complete, a.unit, a.source)
  }

  lemma {:induction false} SummarySplit(boot: string, x: seq<Row>, y: seq<Row>, unit: string, interval: int)
    requires |x| > 0 && |y| > 0
    ensures Summary(boot, x + y, unit, interval)
            == Join2(Summary(boot, x, unit, interval), Summary(boot, y, unit, interval), interval)
  {
    hide Reset, Gapless, Near;
    ResetSplit(x, y);
    GaplessSplit(x, y, interval);
  }

  lemma {:induction false} AnyResetAppend(items: seq<Counter>, last: Counter)
    ensures AnyReset(items + [last]) <==> AnyReset(items) || last.resetObserved
  {
    var z := items + [last];
    assert z[|items|] == last;
    if AnyReset(items) {
      var i :| 0 <= i < |items| && items[i].resetObserved;
      assert z[i].resetObserved;
    }
    if AnyReset(z) {
      var i :| 0 <= i < |z| && z[i].resetObserved;
      assert i < |items| ==> items[i].resetObserved;
    }
  }

  lemma {:induction false} DroppedAppend(items: seq<Counter>, last: Counter)
    requires |items| > 0
    ensures Dropped(items + [last]) <==> Dropped(items) || last.firstValue < items[|items| - 1].lastValue
  {
    var z := items + [last];
    assert z[|items|] == last && z[|items| - 1] == items[|items| - 1];
    if Dropped(items) {
      var i :| 0 < i < |items| && items[i].firstValue < items[i - 1].lastValue;
      assert z[i].firstValue < z[i - 1].lastValue;
    }
    if Dropped(z) {
      var i :| 0 < i < |z| && z[i].firstValue < z[i - 1].lastValue;
      assert i < |items| ==> items[i].firstValue < items[i - 1].lastValue;
    }
  }

  lemma {:induction false} ResetAmongAppend(items: seq<Counter>, last: Counter)
    requires |items| > 0
    ensures ResetAmong(items + [last]) <==>
            ResetAmong(items) || last.resetObserved || last.firstValue < items[|items| - 1].lastValue
  {
    hide AnyReset, Dropped;
    AnyResetAppend(items, last);
    DroppedAppend(items, last);
  }

  lemma {:induction false} CompleteAmongAppend(items: seq<Counter>, last: Counter, interval: int)
    requires |items| > 0
    ensures CompleteAmong(items + [last], interval) <==>
            CompleteAmong(items, interval) && last.orderingComplete
            && Near(items[|items| - 1].lastAt, last.firstAt, interval)
  {
    hide Near;
    var z := items + [last];
    assert z[|items|] == last && z[|items| - 1] == items[|items| - 1];
    if CompleteAmong(z, interval) {
      forall i | 0 <= i < |items|
        ensures items[i].orderingComplete && (i == 0 || Near(items[i - 1].lastAt, items[i].firstAt, interval))
      {
        assert z[i] == items[i];
        assert i > 0 ==> z[i - 1] == items[i - 1];
      }
    }
  }

  lemma {:induction false} CombinedAppend(boot: string, items: seq<Counter>, last: Counter, interval: int)
    requires |items| > 0
    ensures Combined(boot, items + [last], interval) == Join2(Combined(boot, items, interval), last, interval)
  {
    hide ResetAmong, CompleteAmong, Near;
    ResetAmongAppend(items, last);
    CompleteAmongAppend(items, last, interval);
  }

  lemma {:induction false} CombinedOne(boot: string, rows: seq<Row>, unit: string, interval: int)
    requires |rows| > 0
    ensures Combined(boot, [Summary(boot, rows, unit, interval)], interval) == Summary(boot, rows, unit, interval)
  {
    hide Reset, Gapless;
    var one := [Summary(boot, rows, unit, interval)];
    assert ResetAmong(one) <==> one[0].resetObserved;
    assert CompleteAmong(one, interval) <==> one[0].orderingComplete;
  }

  // ---------- time order ----------

  ghost predicate InOrder(rows: seq<Row>) { forall i, j :: 0 <= i < j < |rows| ==> rows[i].at <= rows[j].at }

  ghost predicate ItemsInOrder(items: seq<Counter>) {
    forall i, j :: 0 <= i < j < |items| ==> items[i].firstAt <= items[j].firstAt
  }

  lemma {:induction false} SortedAlready(rows: seq<Row>)
    requires InOrder(rows)
    ensures Sort(rows, RowTime()) == rows
  {
    assert forall i, j :: 0 <= i < j < |rows| ==> RowTime()(rows[i]) <= RowTime()(rows[j]);
    SortOfSorted(rows, RowTime());
  }

  lemma {:induction false} ItemsSortedAlready(items: seq<Counter>)
    requires ItemsInOrder(items)
    ensures Sort(items, CounterTime()) == items
  {
    assert forall i, j :: 0 <= i < j < |items| ==> CounterTime()(items[i]) <= CounterTime()(items[j]);
    SortOfSorted(items, CounterTime());
  }

  lemma {:induction false} SessionInOrder(rows: seq<Row>, key: string)
    requires InOrder(rows)
    ensures InOrder(Session(rows, key)) && SortedRows(rows, key) == Session(rows, key)
    ensures key in Sessions(rows) <==> |Session(rows, key)| > 0
    ensures forall r :: r in Session(rows, key) ==> r in rows
  {
    hide Sort;
    KeysHaveItems(rows, RowBoot(), key);
    if |rows| > 0 {
      var front, last := rows[..|rows| - 1], rows[|rows| - 1];
      SessionInOrder(front, key);
      assert forall r :: r in Session(front, key) ==> r.at <= last.at;
      SortedAlready(Session(rows, key));
    } else {
      SortedAlready([]);
    }
  }

  lemma {:induction false} SummaryAt(keys: seq<string>, rows: seq<Row>, unit: string, interval: int, i: nat)
    requires InOrder(rows) && (forall key :: key in keys ==> key in Sessions(rows))
    ensures |Summaries(keys, rows, unit, interval)| == |keys|
    ensures i < |keys| ==> |Session(rows, keys[i])| > 0
    ensures i < |keys| ==>
            Summaries(keys, rows, unit, interval)[i] == Summary(keys[i], Session(rows, keys[i]), unit, interval)
  {
    hide Summary, SortedRows, Session, Sessions;
    if |keys| > 0 {
      SummaryAt(keys[..|keys| - 1], rows, unit, interval, i);
      SortedRowsExist(rows, keys[|keys| - 1]);
      SessionInOrder(rows, keys[|keys| - 1]);
    }
  }

  // Appending one later reading keeps every earlier first reading.
  lemma {:induction false} FirstReadingKept(rows: seq<Row>, key: string)
    requires |rows| > 0 && key in Sessions(rows[..|rows| - 1])
    ensures |Session(rows[..|rows| - 1], key)| > 0 && |Session(rows, key)| > 0
    ensures Session(rows, key)[0] == Session(rows[..|rows| - 1], key)[0]
  {
    KeysHaveItems(rows[..|rows| - 1], RowBoot(), key);
  }

  lemma {:induction false} NewSession(rows: seq<Row>)
    requires |rows| > 0 && rows[|rows| - 1].boot !in Sessions(rows[..|rows| - 1])
    ensures Session(rows, rows[|rows| - 1].boot) == [rows[|rows| - 1]]
    ensures Sessions(rows) == Sessions(rows[..|rows| - 1]) + [rows[|rows| - 1].boot]
  {
    KeysHaveItems(rows[..|rows| - 1], RowBoot(), rows[|rows| - 1].boot);
  }

  lemma {:induction false} KnownSession(rows: seq<Row>)
    requires |rows| > 0 && rows[|rows| - 1].boot in Sessions(rows[..|rows| - 1])
    ensures Sessions(rows) == Sessions(rows[..|rows| - 1])
  {
  }

  lemma {:induction false} FirstReadingIsReading(rows: seq<Row>, key: string)
    requires key in Sessions(rows)
    ensures |Session(rows, key)| > 0 && Session(rows, key)[0] in rows
  {
    KeysHaveItems(rows, RowBoot(), key);
  }

  // Sessions appear in the order of their first readings.
  lemma {:induction false} SessionsInOrder(rows: seq<Row>, i: nat, j: nat)
    requires InOrder(rows) && i < j < |Sessions(rows)| && |rows| > 0
    ensures |Session(rows, Sessions(rows)[i])| > 0 && |Session(rows, Sessions(rows)[j])| > 0
    ensures Session(rows, Sessions(rows)[i])[0].at <= Session(rows, Sessions(rows)[j])[0].at
  {
    hide Sessions, Session;
    var front, last := rows[..|rows| - 1], rows[|rows| - 1];
    var keys, before := Sessions(rows), Sessions(front);
    if last.boot in before {
      KnownSession(rows);
    } else {
      NewSession(rows);
    }
    assert keys[i] == before[i];
    FirstReadingKept(rows, keys[i]);
    if j < |before| {
      FirstReadingKept(rows, keys[j]);
      NonEmpty(front);
      SessionsInOrder(front, i, j);
    } else {
      FirstReadingIsReading(front, keys[i]);
    }
  }

  lemma {:induction false} NonEmpty(rows: seq<Row>)
    requires |Sessions(rows)| > 0
    ensures |rows| > 0
  {
  }

  lemma {:induction false} SummariesInOrder(rows: seq<Row>, unit: string, interval: int)
    requires InOrder(rows)
    ensures ItemsInOrder(Summaries(Sessions(rows), rows, unit, interval))
  {
    hide Session, Sessions, Summaries;
    var keys := Sessions(rows);
    var out := Summaries(keys, rows, unit, interval);
    forall i, j | 0 <= i < j < |out|
      ensures out[i].firstAt <= out[j].firstAt
    {
      SummaryAt(keys, rows, unit, interval, i);
      SummaryAt(keys, rows, unit, interval, j);
      NonEmpty(rows);
      SessionsInOrder(rows, i, j);
    }
    SummaryAt(keys, rows, unit, interval, 0);
  }

  // Grouping a list of summaries with distinct sessions gives each summary by itself.
  lemma {:induction false} SummariesGrouped(keys: seq<string>, rows: seq<Row>, unit: string, interval: int,
      key: string)
    requires InOrder(rows) && (forall k :: k in keys ==> k in Sessions(rows))
    requires forall i, j :: 0 <= i < j < |keys| ==> keys[i] != keys[j]
    ensures ItemSessions(Summaries(keys, rows, unit, interval)) == keys
    ensures key in keys ==> |Session(rows, key)| > 0
    ensures SessionItems(Summaries(keys, rows, unit, interval), key)
            == if key in keys then [Summary(key, Session(rows, key), unit, interval)] else []
  {
    hide Session, Sessions, SortedRows, Reset, Gapless;
    if |keys| > 0 {
      var front, last := keys[..|keys| - 1], keys[|keys| - 1];
      assert keys == front + [last];
      SummariesGrouped(front, rows, unit, interval, key);
      SortedRowsExist(rows, last);
      SessionInOrder(rows, last);
      var out := Summaries(keys, rows, unit, interval);
      assert out[..|out| - 1] == Summaries(front, rows, unit, interval);
    }
  }

  // ---------- summaries that stand for readings ----------

  // Joined session by session, the summaries say what one summary of all the readings would say.
  ghost predicate StandsFor(items: seq<Counter>, rows: seq<Row>, unit: string, interval: int) {
    && ItemSessions(items) == Sessions(rows)
    && (forall x :: x in items ==> |rows| > 0 && x.firstAt <= rows[|rows| - 1].at)
    && forall key :: key in Sessions(rows) ==> SessionStands(items, rows, key, unit, interval)
  }

  ghost predicate SessionStands(items: seq<Counter>, rows: seq<Row>, key: string, unit: string, interval: int) {
    && |SessionItems(items, key)| > 0 && |Session(rows, key)| > 0
    && ItemsInOrder(SessionItems(items, key))
    && Combined(key, SessionItems(items, key), interval) == Summary(key, Session(rows, key), unit, interval)
  }

  lemma {:induction false} NothingStands(unit: string, interval: int)
    ensures StandsFor([], [], unit, interval)
  {
  }

  lemma {:induction false} SessionAppend(x: seq<Row>, y: seq<Row>, key: string)
    ensures Session(x + y, key) == Session(x, key) + Session(y, key)
    ensures Sessions(x + y) == AddKeys(Sessions(x), Sessions(y))
    ensures key in Sessions(x + y) <==> key in Sessions(x) || key in Sessions(y)
    ensures key in Sessions(x) <==> |Session(x, key)| > 0
    ensures key in Sessions(y) <==> |Session(y, key)| > 0
  {
    OfAppend(x, y, RowBoot(), key);
    KeysAppend(x, y, RowBoot());
    AddedKeys(Sessions(x), Sessions(y), key);
    KeysHaveItems(x, RowBoot(), key);
    KeysHaveItems(y, RowBoot(), key);
  }

  lemma {:induction false} ItemsAppend(x: seq<Counter>, y: seq<Counter>, key: string)
    ensures SessionItems(x + y, key) == SessionItems(x, key) + SessionItems(y, key)
    ensures ItemSessions(x + y) == AddKeys(ItemSessions(x), ItemSessions(y))
    ensures key in ItemSessions(x) <==> |SessionItems(x, key)| > 0
    ensures forall c :: c in SessionItems(x, key) ==> c in x
  {
    OfAppend(x, y, CounterBoot(), key);
    KeysAppend(x, y, CounterBoot());
    KeysHaveItems(x, CounterBoot(), key);
  }

  ghost function AllSummaries(rows: seq<Row>, unit: string, interval: int): seq<Counter> {
    Summaries(Sessions(rows), rows, unit, interval)
  }

  lemma {:induction false} AllSummariesGrouped(rows: seq<Row>, unit: string, interval: int, key: string)
    requires InOrder(rows)
    ensures ItemSessions(AllSummaries(rows, unit, interval)) == Sessions(rows)
    ensures key in Sessions(rows) <==> |Session(rows, key)| > 0
    ensures SessionItems(AllSummaries(rows, unit, interval), key)
            == if key in Sessions(rows) then [Summary(key, Session(rows, key), unit, interval)] else []
  {
    KeysAreDistinct(rows, RowBoot());
    KeysHaveItems(rows, RowBoot(), key);
    SummariesGrouped(Sessions(rows), rows, unit, interval, key);
  }

  lemma {:induction false} LaterSession(items: seq<Counter>, x: seq<Row>, y: seq<Row>, key: string, unit: string,
      interval: int)
    requires StandsFor(items, x, unit, interval) && InOrder(x + y) && InOrder(y)
    requires key in Sessions(x + y)
    ensures SessionStands(items + AllSummaries(y, unit, interval), x + y, key, unit, interval)
  {
    hide Session, Sessions, SessionItems, ItemSessions, AllSummaries, Combined, Summary, Join2, AddKeys;
    var more := AllSummaries(y, unit, interval);
    SessionAppend(x, y, key);
    ItemsAppend(items, more, key);
    AllSummariesGrouped(y, unit, interval, key);
    var l, r := SessionItems(items, key), Session(y, key);
    if key !in Sessions(y) {
      assert l + [] == l && Session(x, key) + r == Session(x, key);
    } else {
      var s := Summary(key, r, unit, interval);
      SummaryTimes(key, r, unit, interval);
      FirstReadingIsReading(y, key);
      if key in Sessions(x) {
        CombinedAppend(key, l, s, interval);
        SummarySplit(key, Session(x, key), r, unit, interval);
        LastBefore(x, y, r[0]);
      } else {
        assert l == [] && l + [s] == [s] && Session(x, key) + r == r;
        CombinedOne(key, r, unit, interval);
      }
    }
  }

  lemma {:induction false} SummaryTimes(boot: string, rows: seq<Row>, unit: string, interval: int)
    requires |rows| > 0
    ensures Summary(boot, rows, unit, interval).firstAt == rows[0].at
  {
  }

  lemma {:induction false} LastBefore(x: seq<Row>, y: seq<Row>, r: Row)
    requires InOrder(x + y) && r in y
    ensures |x| > 0 ==> x[|x| - 1].at <= r.at
    ensures r.at <= (x + y)[|x + y| - 1].at
  {
    var i :| 0 <= i < |y| && y[i] == r;
    assert (x + y)[|x| + i] == r;
    assert |x| > 0 ==> (x + y)[|x| - 1] == x[|x| - 1];
  }

  lemma {:induction false} PartInOrder(x: seq<Row>, y: seq<Row>)
    requires InOrder(x + y)
    ensures InOrder(x) && InOrder(y)
  {
    assert forall i :: 0 <= i < |x| ==> (x + y)[i] == x[i];
    forall i, j | 0 <= i < j < |y|
      ensures y[i].at <= y[j].at
    {
      assert (x + y)[|x| + i] == y[i] && (x + y)[|x| + j] == y[j];
    }
  }

  // Adding the summaries of later readings.
  lemma {:induction false} StandsForMore(items: seq<Counter>, x: seq<Row>, y: seq<Row>, unit: string, interval: int)
    requires StandsFor(items, x, unit, interval) && InOrder(x + y)
    ensures StandsFor(items + AllSummaries(y, unit, interval), x + y, unit, interval)
  {
    hide Session, Sessions, SessionItems, ItemSessions, AllSummaries, Combined, Summary, SessionStands, AddKeys,
      InOrder;
    var more := AllSummaries(y, unit, interval);
    PartInOrder(x, y);
    SessionAppend(x, y, "");
    ItemsAppend(items, more, "");
    AllSummariesGrouped(y, unit, interval, "");
    forall key | key in Sessions(x + y)
      ensures SessionStands(items + more, x + y, key, unit, interval)
    {
      LaterSession(items, x, y, key, unit, interval);
    }
    forall c | c in items + more
      ensures |x + y| > 0 && c.firstAt <= (x + y)[|x + y| - 1].at
    {
      TimesWithin(items, x, y, c, unit, interval);
    }
  }

  lemma {:induction false} TimesWithin(items: seq<Counter>, x: seq<Row>, y: seq<Row>, c: Counter, unit: string,
      interval: int)
    requires StandsFor(items, x, unit, interval) && InOrder(x + y) && InOrder(y)
    requires c in items + AllSummaries(y, unit, interval)
    ensures |x + y| > 0 && c.firstAt <= (x + y)[|x + y| - 1].at
  {
    hide Session, Sessions, SessionItems, ItemSessions, Combined, Summary, SessionStands, Summaries;
    if c in items {
      assert (x + y)[|x| - 1] == x[|x| - 1];
    } else {
      var keys := Sessions(y);
      var more := Summaries(keys, y, unit, interval);
      var i :| 0 <= i < |more| && more[i] == c;
      SummaryAt(keys, y, unit, interval, i);
      SummaryTimes(keys[i], Session(y, keys[i]), unit, interval);
      FirstReadingIsReading(y, keys[i]);
      LastBefore(x, y, Session(y, keys[i])[0]);
    }
  }

  // Joining such summaries gives the summaries of all the readings.
  lemma {:induction false} JoinedStands(keys: seq<string>, items: seq<Counter>, rows: seq<Row>, unit: string,
      interval: int)
    requires StandsFor(items, rows, unit, interval) && InOrder(rows)
    requires forall key :: key in keys ==> key in Sessions(rows)
    ensures Joined(keys, items, interval) == Summaries(keys, rows, unit, interval)
  {
    hide Session, Sessions, SessionItems, ItemSessions, Combined, Summary, Sort;
    if |keys| > 0 {
      var key := keys[|keys| - 1];
      assert key in keys;
      JoinedStands(keys[..|keys| - 1], items, rows, unit, interval);
      SessionInOrder(rows, key);
      assert SessionStands(items, rows, key, unit, interval);
      ItemsSortedAlready(SessionItems(items, key));
    }
  }

  lemma {:induction false} JoinAllStands(items: seq<Counter>, rows: seq<Row>, unit: string, interval: int)
    requires StandsFor(items, rows, unit, interval) && InOrder(rows)
    ensures JoinAll(items, interval) == AllSummaries(rows, unit, interval)
  {
    hide Session, Sessions, SessionItems, ItemSessions, Combined, Summary, Sort, Summaries, Joined;
    JoinedStands(Sessions(rows), items, rows, unit, interval);
    SummariesInOrder(rows, unit, interval);
    ItemsSortedAlready(AllSummaries(rows, unit, interval));
  }

  // ---------- splitting a series ----------

  lemma {:induction false} RowsAppend(x: seq<Observation>, y: seq<Observation>, name: string)
    ensures Rows(x + y, name) == Rows(x, name) + Rows(y, name)
  {
    hide MetricRows;
    if |y| == 0 {
      assert x + y == x;
    } else {
      assert (x + y)[..|x + y| - 1] == x + y[..|y| - 1];
      RowsAppend(x, y[..|y| - 1], name);
    }
  }

  ghost predicate ObservedInOrder(os: seq<Observation>) {
    forall i, j :: 0 <= i < j < |os| ==> os[i].observedAt <= os[j].observedAt
  }

  lemma {:induction false} MetricRowsTime(o: Observation, metrics: seq<Metric>, name: string)
    ensures forall r :: r in MetricRows(o, metrics, name) ==> r.at == o.observedAt
  {
    if |metrics| > 0 {
      MetricRowsTime(o, metrics[..|metrics| - 1], name);
    }
  }

  lemma {:induction false} RowsInOrder(os: seq<Observation>, name: string)
    requires ObservedInOrder(os)
    ensures InOrder(Rows(os, name))
    ensures forall r :: r in Rows(os, name) ==> |os| > 0 && r.at <= os[|os| - 1].observedAt
  {
    hide MetricRows;
    if |os| > 0 {
      var front, last := os[..|os| - 1], os[|os| - 1];
      RowsInOrder(front, name);
      MetricRowsTime(last, last.metrics, name);
      var more := MetricRows(last, last.metrics, name);
      assert forall i :: 0 <= i < |Rows(front, name)| ==> Rows(front, name)[i] in Rows(front, name);
      assert forall i :: 0 <= i < |more| ==> more[i] in more;
    }
  }

  lemma {:induction false} RawSeriesInOrder(os: seq<Observation>, name: string, unit: string, interval: int)
    requires ObservedInOrder(os)
    ensures var rows := Rows(os, name);
            && InOrder(rows)
            && RawSeries(os, name, unit, interval)
               == if Consistent(Sessions(rows), rows) then Success(AllSummaries(rows, unit, interval))
                 else Failure(Inconsistent)
  {
    hide Rows, Sessions, Summaries, Sort, Consistent, InOrder;
    RowsInOrder(os, name);
    SummariesInOrder(Rows(os, name), unit, interval);
    ItemsSortedAlready(AllSummaries(Rows(os, name), unit, interval));
  }

  lemma {:induction false} OneSourceSplit(x: seq<Row>, y: seq<Row>)
    requires |x| > 0 && |y| > 0
    ensures OneSource(x + y) <==> OneSource(x) && OneSource(y) && y[0].source == x[0].source
  {
    var z := x + y;
    assert forall i :: 0 <= i < |x| ==> z[i] == x[i];
    assert forall i :: 0 <= i < |y| ==> z[|x| + i] == y[i];
  }

  // One session's readings are of one source exactly when both parts are and their summaries agree.
  lemma {:induction false} SourcesSplit(x: seq<Row>, y: seq<Row>, key: string, unit: string, interval: int)
    requires InOrder(x + y) && key in Sessions(x + y)
    ensures var items := AllSummaries(x, unit, interval) + AllSummaries(y, unit, interval);
            OneSource(SortedRows(x + y, key)) <==>
            OneSource(SortedRows(x, key)) && OneSource(SortedRows(y, key)) && Agree(SortedItems(items, key))
  {
    hide Session, Sessions, SessionItems, ItemSessions, AllSummaries, Sort, AddKeys, InOrder, Summary, Agree, OneSource;
    PartInOrder(x, y);
    SessionInOrder(x + y, key);
    SessionInOrder(x, key);
    SessionInOrder(y, key);
    SessionAppend(x, y, key);
    var first, second := AllSummaries(x, unit, interval), AllSummaries(y, unit, interval);
    AllSummariesGrouped(x, unit, interval, key);
    AllSummariesGrouped(y, unit, interval, key);
    ItemsAppend(first, second, key);
    var l := SessionItems(first + second, key);
    BothStand(x, y, unit, interval, key);
    ItemsSortedAlready(l);
    AgreementCases(Session(x, key), Session(y, key), key, unit, interval);
    if key !in Sessions(x) {
      assert Session(x, key) == [] && SessionItems(first, key) == [];
      assert [] + Session(y, key) == Session(y, key) && [] + SessionItems(second, key) == SessionItems(second, key);
    } else if key !in Sessions(y) {
      assert Session(y, key) == [] && SessionItems(second, key) == [];
      assert Session(x, key) + [] == Session(x, key) && SessionItems(first, key) + [] == SessionItems(first, key);
    }
  }

  lemma {:induction false} AgreementCases(x: seq<Row>, y: seq<Row>, key: string, unit: string, interval: int)
    ensures OneSource([]) && (|x| > 0 ==> Agree([Summary(key, x, unit, interval)]))
    ensures |y| > 0 ==> Agree([Summary(key, y, unit, interval)])
    ensures |x| > 0 && |y| > 0 ==>
      (OneSource(x + y) <==> OneSource(x) && OneSource(y)
                             && Agree([Summary(key, x, unit, interval)] + [Summary(key, y, unit, interval)]))
  {
    hide Reset, Gapless;
    if |x| > 0 && |y| > 0 {
      OneSourceSplit(x, y);
      PairAgrees(Summary(key, x, unit, interval), Summary(key, y, unit, interval));
    }
  }

  lemma {:induction false} PairAgrees(s: Counter, t: Counter)
    ensures Agree([s] + [t]) <==> t.unit == s.unit && t.source == s.source
  {
    var pair := [s] + [t];
    assert pair[0] == s && pair[1] == t;
  }

  lemma {:induction false} BothStand(x: seq<Row>, y: seq<Row>, unit: string, interval: int, key: string)
    requires InOrder(x + y)
    ensures var items := AllSummaries(x, unit, interval) + AllSummaries(y, unit, interval);
            StandsFor(items, x + y, unit, interval)
            && (key in Sessions(x + y) ==> ItemsInOrder(SessionItems(items, key)))
  {
    hide Session, Sessions, SessionItems, ItemSessions, AllSummaries, InOrder, Combined, Summary;
    PartInOrder(x, y);
    NothingStands(unit, interval);
    assert [] + x == x && [] + AllSummaries(x, unit, interval) == AllSummaries(x, unit, interval);
    StandsForMore([], [], x, unit, interval);
    StandsForMore(AllSummaries(x, unit, interval), x, y, unit, interval);
    var items := AllSummaries(x, unit, interval) + AllSummaries(y, unit, interval);
    if key in Sessions(x + y) {
      assert SessionStands(items, x + y, key, unit, interval);
    }
  }

  lemma {:induction false} ConsistentSplit(x: seq<Row>, y: seq<Row>, unit: string, interval: int)
    requires InOrder(x + y)
    ensures var items := AllSummaries(x, unit, interval) + AllSummaries(y, unit, interval);
            Consistent(Sessions(x + y), x + y) <==>
            Consistent(Sessions(x), x) && Consistent(Sessions(y), y) && AllAgree(ItemSessions(items), items)
  {
    hide Sessions, ItemSessions, AllSummaries, InOrder, OneSource, Agree, SortedRows, SortedItems;
    var items := AllSummaries(x, unit, interval) + AllSummaries(y, unit, interval);
    BothStand(x, y, unit, interval, "");
    forall key | key in Sessions(x + y)
      ensures OneSource(SortedRows(x + y, key)) <==>
              OneSource(SortedRows(x, key)) && OneSource(SortedRows(y, key)) && Agree(SortedItems(items, key))
    {
      SourcesSplit(x, y, key, unit, interval);
    }
    forall key | key in Sessions(x) || key in Sessions(y)
      ensures key in Sessions(x + y)
    {
      SessionAppend(x, y, key);
    }
    forall key | key in Sessions(x + y)
      ensures key !in Sessions(x) ==> OneSource(SortedRows(x, key))
      ensures key !in Sessions(y) ==> OneSource(SortedRows(y, key))
    {
      NoRowsOneSource(x, key);
      NoRowsOneSource(y, key);
    }
  }

  lemma {:induction false} NoRowsOneSource(rows: seq<Row>, key: string)
    ensures key !in Sessions(rows) ==> OneSource(SortedRows(rows, key))
  {
    KeysHaveItems(rows, RowBoot(), key);
  }

  // Splitting the observations anywhere, summarising both parts and joining the summaries is the same
  // as summarising the whole, errors included.
  lemma {:induction false} SplitSeries(x: seq<Observation>, y: seq<Observation>, name: string, unit: string,
      interval: int)
    requires ObservedInOrder(x + y)
    ensures var whole := RawSeries(x + y, name, unit, interval);
            var first, second := RawSeries(x, name, unit, interval), RawSeries(y, name, unit, interval);
            whole == if first.Failure? || second.Failure? then Failure(Inconsistent)
                     else MergeSeries(second.value, first.value, interval)
  {
    hide Rows, Sessions, ItemSessions, AllSummaries, InOrder, Consistent, AllAgree, RawSeries, JoinAll;
    PartsObserved(x, y);
    RowsAppend(x, y, name);
    RawSeriesInOrder(x + y, name, unit, interval);
    RawSeriesInOrder(x, name, unit, interval);
    RawSeriesInOrder(y, name, unit, interval);
    var a, b := Rows(x, name), Rows(y, name);
    BothStand(a, b, unit, interval, "");
    ConsistentSplit(a, b, unit, interval);
    JoinAllStands(AllSummaries(a, unit, interval) + AllSummaries(b, unit, interval), a + b, unit, interval);
  }

  lemma {:induction false} PartsObserved(x: seq<Observation>, y: seq<Observation>)
    requires ObservedInOrder(x + y)
    ensures ObservedInOrder(x) && ObservedInOrder(y)
  {
    assert forall i :: 0 <= i < |x| ==> (x + y)[i] == x[i];
    forall i, j | 0 <= i < j < |y|
      ensures y[i].observedAt <= y[j].observedAt
    {
      assert (x + y)[|x| + i] == y[i] && (x + y)[|x| + j] == y[j];
    }
  }

  // The counters of a list of buckets, each summarising its own observations.
  ghost predicate Buckets(buckets: seq<seq<Counter>>, parts: seq<seq<Observation>>, name: string, unit: string,
      interval: int) {
    |buckets| == |parts| && forall i :: 0 <= i < |parts| ==>
      RawSeries(parts[i], name, unit, interval) == Success(buckets[i])
  }

  lemma {:induction false} BucketsStand(buckets: seq<seq<Counter>>, parts: seq<seq<Observation>>, name: string,
      unit: string, interval: int)
    requires ObservedInOrder(Flatten(parts)) && Buckets(buckets, parts, name, unit, interval)
    ensures StandsFor(Flatten(buckets), Rows(Flatten(parts), name), unit, interval)
  {
    hide Rows, Sessions, ItemSessions, AllSummaries, InOrder, Consistent, RawSeries, StandsFor;
    if |parts| == 0 {
      NothingStands(unit, interval);
      NoRows(name);
    } else {
      var n := |parts| - 1;
      PartsObserved(Flatten(parts[..n]), parts[n]);
      BucketsStand(buckets[..n], parts[..n], name, unit, interval);
      RowsAppend(Flatten(parts[..n]), parts[n], name);
      RowsInOrder(Flatten(parts), name);
      RawSeriesInOrder(parts[n], name, unit, interval);
      StandsForMore(Flatten(buckets[..n]), Rows(Flatten(parts[..n]), name), Rows(parts[n], name), unit, interval);
    }
  }

  lemma {:induction false} NoRows(name: string)
    ensures Rows([], name) == []
  {
  }

  // Any number of buckets in time order joins to the series of all their observations.
  lemma {:induction false} BucketsJoin(buckets: seq<seq<Counter>>, parts: seq<seq<Observation>>, name: string,
      unit: string, interval: int)
    requires ObservedInOrder(Flatten(parts)) && Buckets(buckets, parts, name, unit, interval)
    requires RawSeries(Flatten(parts), name, unit, interval).Success?
    ensures Success(JoinAll(Flatten(buckets), interval)) == RawSeries(Flatten(parts), name, unit, interval)
  {
    hide Rows, Sessions, ItemSessions, AllSummaries, InOrder, Consistent, RawSeries, StandsFor, JoinAll, Flatten;
    BucketsStand(buckets, parts, name, unit, interval);
    RawSeriesInOrder(Flatten(parts), name, unit, interval);
    JoinAllStands(Flatten(buckets), Rows(Flatten(parts), name), unit, interval);
  }

  // ---------- deltas ----------

  // A delta is the last value minus the first, and never negative.
  predicate SoundDelta(c: Counter) {
    && (c.delta.Some? <==> !c.resetObserved && c.orderingComplete)
    && (c.delta.Some? ==> c.delta.value == c.lastValue - c.firstValue)
    && (!c.resetObserved ==> c.firstValue <= c.lastValue)
  }

  lemma {:induction false} NeverDown(rows: seq<Row>, i: nat)
    requires !Reset(rows) && i < |rows|
    ensures rows[0].value <= rows[i].value
  {
    if i > 0 {
      NeverDown(rows, i - 1);
    }
  }

  lemma {:induction false} SummaryDelta(boot: string, rows: seq<Row>, unit: string, interval: int)
    requires |rows| > 0
    ensures SoundDelta(Summary(boot, rows, unit, interval))
  {
    hide Reset, Gapless;
    if !Reset(rows) {
      NeverDown(rows, |rows| - 1);
    }
  }

  lemma {:induction false} ItemsNeverDown(items: seq<Counter>, i: nat)
    requires !ResetAmong(items) && i < |items| && forall c :: c in items ==> SoundDelta(c)
    ensures items[0].firstValue <= items[i].lastValue
  {
    assert items[i] in items;
    if i > 0 {
      ItemsNeverDown(items, i - 1);
    }
  }

  lemma {:induction false} CombinedDelta(boot: string, items: seq<Counter>, interval: int)
    requires |items| > 0 && forall c :: c in items ==> SoundDelta(c)
    ensures SoundDelta(Combined(boot, items, interval))
  {
    hide ResetAmong, CompleteAmong;
    if !ResetAmong(items) {
      ItemsNeverDown(items, |items| - 1);
    }
  }

  // Whatever the observations and their order, every delta of a raw series is sound.
  lemma {:induction false} RawDeltas(os: seq<Observation>, name: string, unit: string, interval: int, c: Counter)
    requires RawSeries(os, name, unit, interval).Success? && c in RawSeries(os, name, unit, interval).value
    ensures SoundDelta(c)
  {
    hide Rows, Sessions, Sort, Consistent, SoundDelta;
    var rows := Rows(os, name);
    SortMembers(Summaries(Sessions(rows), rows, unit, interval), CounterTime(), c);
    SummariesDeltas(Sessions(rows), rows, unit, interval, c);
  }

  lemma {:induction false} SummariesDeltas(keys: seq<string>, rows: seq<Row>, unit: string, interval: int, c: Counter)
    requires (forall key :: key in keys ==> key in Sessions(rows)) && c in Summaries(keys, rows, unit, interval)
    ensures SoundDelta(c)
  {
    hide Sessions, SortedRows, Summary, SoundDelta;
    var key := keys[|keys| - 1];
    SortedRowsExist(rows, key);
    if c == Summary(key, SortedRows(rows, key), unit, interval) {
      SummaryDelta(key, SortedRows(rows, key), unit, interval);
    } else {
      SummariesDeltas(keys[..|keys| - 1], rows, unit, interval, c);
    }
  }

  // Joining sound summaries, in whatever order and number, keeps every delta sound.
  lemma {:induction false} JoinedDeltas(items: seq<Counter>, interval: int, c: Counter)
    requires (forall x :: x in items ==> SoundDelta(x)) && c in JoinAll(items, interval)
    ensures SoundDelta(c)
  {
    hide ItemSessions, Sort, SoundDelta, Joined;
    SortMembers(Joined(ItemSessions(items), items, interval), CounterTime(), c);
    JoinedKeysDeltas(ItemSessions(items), items, interval, c);
  }

  lemma {:induction false} JoinedKeysDeltas(keys: seq<string>, items: seq<Counter>, interval: int, c: Counter)
    requires (forall key :: key in keys ==> key in ItemSessions(items)) && c in Joined(keys, items, interval)
    requires forall x :: x in items ==> SoundDelta(x)
    ensures SoundDelta(c)
  {
    hide ItemSessions, SortedItems, Combined, SoundDelta;
    var key := keys[|keys| - 1];
    SortedItemsExist(items, key);
    if c == Combined(key, SortedItems(items, key), interval) {
      forall x | x in SortedItems(items, key)
        ensures x in items
      {
        SortedItemIsItem(items, key, x);
      }
      CombinedDelta(key, SortedItems(items, key), interval);
    } else {
      JoinedKeysDeltas(keys[..|keys| - 1], items, interval, c);
    }
  }

  lemma {:induction false} SortedItemIsItem(items: seq<Counter>, key: string, x: Counter)
    requires x in SortedItems(items, key)
    ensures x in items
  {
    hide Sort;
    SortMembers(SessionItems(items, key), CounterTime(), x);
    KeysHaveItems(items, CounterBoot(), key);
  }

  // ---------- what a series says ----------

  // The summary of a session's readings in time order: first and last reading, whether a value dropped,
  // and whether neighbours are never more than one and a half intervals apart; the difference of the last
  // and the first value when nothing dropped and nothing is missing.
  ghost predicate TellsRows(c: Counter, rows: seq<Row>, unit: string, interval: int) {
    && |rows| > 0 && c.unit == unit && (forall i :: 0 <= i < |rows| ==> rows[i].source == c.source)
    && c.firstValue == rows[0].value && c.firstAt == rows[0].at
    && c.lastValue == rows[|rows| - 1].value && c.lastAt == rows[|rows| - 1].at
    && (c.resetObserved <==> exists i :: 0 < i < |rows| && rows[i].value < rows[i - 1].value)
    && (c.orderingComplete <==>
         forall i :: 0 < i < |rows| ==> (rows[i].at - rows[i - 1].at) as real <= 1.5 * interval as real)
    && c.delta == (if !c.resetObserved && c.orderingComplete then Some(c.lastValue - c.firstValue) else None)
  }

  // The same for a session's summaries that are joined.
  ghost predicate TellsItems(c: Counter, items: seq<Counter>, interval: int) {
    && |items| > 0 && c.unit == items[0].unit && c.source == items[0].source
    && c.firstValue == items[0].firstValue && c.firstAt == items[0].firstAt
    && c.lastValue == items[|items| - 1].lastValue && c.lastAt == items[|items| - 1].lastAt
    && (c.resetObserved <==>
         || (exists i :: 0 <= i < |items| && items[i].resetObserved)
         || exists i :: 0 < i < |items| && items[i].firstValue < items[i - 1].lastValue)
    && (c.orderingComplete <==>
         && (forall i :: 0 <= i < |items| ==> items[i].orderingComplete)
         && forall i :: 0 < i < |items| ==> (items[i].firstAt - items[i - 1].lastAt) as real <= 1.5 * interval as real)
    && c.delta == (if !c.resetObserved && c.orderingComplete then Some(c.lastValue - c.firstValue) else None)
  }

  lemma {:induction false} NearIs(from: int, to: int, interval: int)
    ensures Near(from, to, interval) <==> (to - from) as real <= 1.5 * interval as real
  {
  }

  lemma {:induction false} SummaryTells(boot: string, rows: seq<Row>, unit: string, interval: int)
    requires |rows| > 0 && OneSource(rows)
    ensures TellsRows(Summary(boot, rows, unit, interval), rows, unit, interval)
  {
    hide Near;
    forall i | 0 < i < |rows|
      ensures Near(rows[i - 1].at, rows[i].at, interval)
          <==> (rows[i].at - rows[i - 1].at) as real <= 1.5 * interval as real
    {
      NearIs(rows[i - 1].at, rows[i].at, interval);
    }
  }

  lemma {:induction false} CombinedTells(boot: string, items: seq<Counter>, interval: int)
    requires |items| > 0
    ensures TellsItems(Combined(boot, items, interval), items, interval)
  {
    hide Near;
    forall i | 0 < i < |items|
      ensures Near(items[i - 1].lastAt, items[i].firstAt, interval)
          <==> (items[i].firstAt - items[i - 1].lastAt) as real <= 1.5 * interval as real
    {
      NearIs(items[i - 1].lastAt, items[i].firstAt, interval);
    }
  }

  // One summary for each boot session.
  ghost predicate OncePerSession(series: seq<Counter>, keys: seq<string>) {
    && (forall c :: c in series ==> c.boot in keys)
    && (forall key :: key in keys ==> exists c :: c in series && c.boot == key)
    && |series| == |keys|
  }

  lemma {:induction false} SummariesTell(keys: seq<string>, rows: seq<Row>, unit: string, interval: int)
    requires (forall key :: key in keys ==> key in Sessions(rows)) && Consistent(keys, rows)
    ensures var series := Summaries(keys, rows, unit, interval);
            && OncePerSession(series, keys)
            && forall c :: c in series ==> TellsRows(c, SortedRows(rows, c.boot), unit, interval)
  {
    hide Sessions, SortedRows, Summary, TellsRows, OneSource;
    if |keys| > 0 {
      var front, key := keys[..|keys| - 1], keys[|keys| - 1];
      assert keys == front + [key];
      SummariesTell(front, rows, unit, interval);
      SortedRowsExist(rows, key);
      SummaryTells(key, SortedRows(rows, key), unit, interval);
      SummaryBoot(key, SortedRows(rows, key), unit, interval);
      assert Summary(key, SortedRows(rows, key), unit, interval) in Summaries(keys, rows, unit, interval);
      assert forall c :: c in Summaries(front, rows, unit, interval) ==> c in Summaries(keys, rows, unit, interval);
    }
  }

  lemma {:induction false} SummaryBoot(boot: string, rows: seq<Row>, unit: string, interval: int)
    requires |rows| > 0
    ensures Summary(boot, rows, unit, interval).boot == boot
  {
  }

  ghost predicate FirstTimesSorted(series: seq<Counter>) {
    forall i, j :: 0 <= i < j < |series| ==> series[i].firstAt <= series[j].firstAt
  }

  lemma {:induction false} SortedSeries(series: seq<Counter>, keys: seq<string>)
    requires OncePerSession(series, keys)
    ensures OncePerSession(Sort(series, CounterTime()), keys) && FirstTimesSorted(Sort(series, CounterTime()))
    ensures forall c :: c in Sort(series, CounterTime()) <==> c in series
  {
    hide Sort;
    var sorted := Sort(series, CounterTime());
    SortIsSorted(series, CounterTime());
    forall c
      ensures c in sorted <==> c in series
    {
      SortMembers(series, CounterTime(), c);
    }
    forall i, j | 0 <= i < j < |sorted|
      ensures sorted[i].firstAt <= sorted[j].firstAt
    {
      assert CounterTime()(sorted[i]) <= CounterTime()(sorted[j]);
    }
  }

  /** A raw series holds each boot session once, in the order of the first readings, and tells its sorted readings. */
  lemma {:induction false} RawSeriesTells(os: seq<Observation>, name: string, unit: string, interval: int)
    requires RawSeries(os, name, unit, interval).Success?
    ensures var series, rows := RawSeries(os, name, unit, interval).value, Rows(os, name);
            && OncePerSession(series, Sessions(rows)) && FirstTimesSorted(series)
            && forall c :: c in series ==> TellsRows(c, SortedRows(rows, c.boot), unit, interval)
  {
    hide Rows, Sessions, SortedRows, TellsRows, OncePerSession, Sort, Summaries;
    var rows := Rows(os, name);
    SummariesTell(Sessions(rows), rows, unit, interval);
    SortedSeries(Summaries(Sessions(rows), rows, unit, interval), Sessions(rows));
  }

  lemma {:induction false} JoinedTell(keys: seq<string>, items: seq<Counter>, interval: int)
    requires forall key :: key in keys ==> key in ItemSessions(items)
    ensures var series := Joined(keys, items, interval);
            && OncePerSession(series, keys)
            && forall c :: c in series ==> TellsItems(c, SortedItems(items, c.boot), interval)
  {
    hide ItemSessions, SortedItems, Combined, TellsItems;
    if |keys| > 0 {
      var front, key := keys[..|keys| - 1], keys[|keys| - 1];
      assert keys == front + [key];
      JoinedTell(front, items, interval);
      SortedItemsExist(items, key);
      CombinedTells(key, SortedItems(items, key), interval);
      CombinedBoot(key, SortedItems(items, key), interval);
      assert Combined(key, SortedItems(items, key), interval) in Joined(keys, items, interval);
      assert forall c :: c in Joined(front, items, interval) ==> c in Joined(keys, items, interval);
    }
  }

  lemma {:induction false} CombinedBoot(boot: string, items: seq<Counter>, interval: int)
    requires |items| > 0
    ensures Combined(boot, items, interval).boot == boot
  {
  }

  /** A joined series holds each boot session once and tells its sorted summaries. */
  lemma {:induction false} JoinAllTells(items: seq<Counter>, interval: int)
    ensures var series := JoinAll(items, interval);
            && OncePerSession(series, ItemSessions(items)) && FirstTimesSorted(series)
            && forall c :: c in series ==> TellsItems(c, SortedItems(items, c.boot), interval)
  {
    hide ItemSessions, SortedItems, TellsItems, OncePerSession, Sort, Joined;
    JoinedTell(ItemSessions(items), items, interval);
    SortedSeries(Joined(ItemSessions(items), items, interval), ItemSessions(items));
  }

  // What the readings of a session are: those of the metric with a value, in that session, in time order.
  lemma {:induction false} SessionRows(os: seq<Observation>, name: string, key: string, r: Row)
    ensures r in SortedRows(Rows(os, name), key)
        <==> r.boot == key && exists o, m :: o in os && m in o.metrics && IsReading(o, m, name, r)
    ensures SortedBy(SortedRows(Rows(os, name), key), RowTime())
  {
    hide Rows, Sort, SortedBy;
    SortMembers(Session(Rows(os, name), key), RowTime(), r);
    SortIsSorted(Session(Rows(os, name), key), RowTime());
    OfHas(Rows(os, name), RowBoot(), key, r);
    RowsHas(os, name, r);
  }

  ghost predicate IsReading(o: Observation, m: Metric, name: string, r: Row) {
    m.name == name && m.value == Some(r.value) && r.boot == o.bootSessionId && r.at == o.observedAt
      && r.source == m.source
  }

  lemma {:induction false} OfHas<T>(items: seq<T>, boot: T -> string, key: string, x: T)
    ensures x in Of(items, boot, key) <==> x in items && boot(x) == key
  {
    if |items| > 0 {
      var front, last := items[..|items| - 1], items[|items| - 1];
      assert items == front + [last];
      OfHas(front, boot, key, x);
    }
  }

  lemma {:induction false} RowsHas(os: seq<Observation>, name: string, r: Row)
    ensures r in Rows(os, name) <==> exists o, m :: o in os && m in o.metrics && IsReading(o, m, name, r)
  {
    hide MetricRows, IsReading;
    if |os| > 0 {
      var front, last := os[..|os| - 1], os[|os| - 1];
      assert os == front + [last];
      RowsHas(front, name, r);
      MetricRowsHas(last, last.metrics, name, r);
    }
  }

  lemma {:induction false} MetricRowsHas(o: Observation, metrics: seq<Metric>, name: string, r: Row)
    ensures r in MetricRows(o, metrics, name) <==> exists m :: m in metrics && IsReading(o, m, name, r)
  {
    if |metrics| > 0 {
      var front, last := metrics[..|metrics| - 1], metrics[|metrics| - 1];
      assert metrics == front + [last];
      MetricRowsHas(o, front, name, r);
      var more := if last.name == name && last.value.Some?
                  then [Row(o.bootSessionId, last.value.value, o.observedAt, last.source)] else [];
      assert MetricRows(o, metrics, name) == MetricRows(o, front, name) + more;
      assert r in more <==> IsReading(o, last, name, r);
    }
  }

  // A raw series is refused exactly when some session mixes sources; a merge exactly when some session
  // mixes units or sources.
  lemma {:induction false} RefusedExactly(os: seq<Observation>, name: string, unit: string, interval: int)
    ensures RawSeries(os, name, unit, interval).Failure?
        <==> exists r, t :: r in Rows(os, name) && t in Rows(os, name) && r.boot == t.boot && r.source != t.source
  {
    hide Rows, Summaries, Sort, OneSource;
    var rows := Rows(os, name);
    var keys := Sessions(rows);
    forall key
      ensures OneSource(SortedRows(rows, key)) <==> !MixedSession(rows, key)
    {
      SessionMixed(rows, key);
    }
    if r, t :| r in rows && t in rows && r.boot == t.boot && r.source != t.source {
      KeysHaveItems(rows, RowBoot(), r.boot);
      OfHas(rows, RowBoot(), r.boot, r);
      assert MixedSession(rows, r.boot);
    }
  }

  ghost predicate MixedSession(rows: seq<Row>, key: string) {
    exists r, t :: r in rows && t in rows && r.boot == key && t.boot == key && r.source != t.source
  }

  lemma {:induction false} SessionMixed(rows: seq<Row>, key: string)
    ensures OneSource(SortedRows(rows, key)) <==> !MixedSession(rows, key)
  {
    hide Sort, Of;
    var sorted := SortedRows(rows, key);
    forall r
      ensures r in sorted <==> r in rows && r.boot == key
    {
      SortMembers(Session(rows, key), RowTime(), r);
      OfHas(rows, RowBoot(), key, r);
    }
    if !OneSource(sorted) {
      var i :| 0 <= i < |sorted| && sorted[i].source != sorted[0].source;
      assert sorted[i] in sorted && sorted[0] in sorted;
    }
    if MixedSession(rows, key) {
      var r, t :| r in rows && t in rows && r.boot == key && t.boot == key && r.source != t.source;
      assert r in sorted && t in sorted;
      var i :| 0 <= i < |sorted| && sorted[i] == r;
      var j :| 0 <= j < |sorted| && sorted[j] == t;
      assert sorted[i].source != sorted[j].source;
    }
  }

  ghost predicate MixedItems(items: seq<Counter>, key: string) {
    exists c, d :: c in items && d in items && c.boot == key && d.boot == key
      && (c.unit != d.unit || c.source != d.source)
  }

  lemma {:induction false} ItemsMixed(items: seq<Counter>, key: string)
    ensures Agree(SortedItems(items, key)) <==> !MixedItems(items, key)
  {
    hide Sort, Of;
    var sorted := SortedItems(items, key);
    forall c
      ensures c in sorted <==> c in items && c.boot == key
    {
      SortMembers(SessionItems(items, key), CounterTime(), c);
      OfHas(items, CounterBoot(), key, c);
    }
    if !Agree(sorted) {
      var i :| 0 <= i < |sorted| && (sorted[i].unit != sorted[0].unit || sorted[i].source != sorted[0].source);
      assert sorted[i] in sorted && sorted[0] in sorted;
    }
    if MixedItems(items, key) {
      var c, d :| c in items && d in items && c.boot == key && d.boot == key
        && (c.unit != d.unit || c.source != d.source);
      assert c in sorted && d in sorted;
      var i :| 0 <= i < |sorted| && sorted[i] == c;
      var j :| 0 <= j < |sorted| && sorted[j] == d;
      assert sorted[i].unit != sorted[j].unit || sorted[i].source != sorted[j].source;
    }
  }

  lemma {:induction false} MergeRefusedExactly(raw: seq<Counter>, aggregate: seq<Counter>, interval: int)
    ensures MergeSeries(raw, aggregate, interval).Failure? <==> exists key :: MixedItems(aggregate + raw, key)
  {
    hide JoinAll, Agree, SortedItems;
    var items := aggregate + raw;
    forall key
      ensures Agree(SortedItems(items, key)) <==> !MixedItems(items, key)
    {
      ItemsMixed(items, key);
    }
    if key :| MixedItems(items, key) {
      KeysHaveItems(items, CounterBoot(), key);
      var c :| c in items && c.boot == key;
      OfHas(items, CounterBoot(), key, c);
      assert key in ItemSessions(items);
    }
  }
}
