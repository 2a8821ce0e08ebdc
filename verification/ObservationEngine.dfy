/**
 The device observation engine: each field of a device keeps the latest authorised reading.
 A timestamp is its text together with the instant it parses to, if any.
 */
module ObservationEngine {
  import opened Wrappers

  datatype Stamp = Stamp(text: string, time: Option<int>)

  // A value of any other type, or a number that is not finite, is Malformed.
  datatype Value = Number(number: real) | Boolean(flag: bool) | Text(text: string) | Malformed

  // values is None when it is not a plain object; its keys are distinct, as in any object.
  datatype Observation = Observation(deviceId: string, sourceId: string, evidenceId: Option<string>,
                                     receivedAt: Stamp, measuredAt: Option<Stamp>,
                                     values: Option<seq<(string, Value)>>)

  // allowedSourcesByField is None when it is not a plain object.
  datatype Policy = Policy(deviceId: string, allowedSourcesByField: Option<map<string, seq<string>>>)

  datatype Field = Field(value: Value, sourceId: string, evidenceId: Option<string>,
                         receivedAt: Stamp, measuredAt: Option<Stamp>, orderAt: Stamp)

  datatype State = State(deviceId: string, fields: map<string, Field>)

  datatype Reason = Accepted | InvalidObservation | StaleObservation | SourceNotAuthorized | InvalidPolicy

  datatype Decision = Decision(reason: Reason, updatedKeys: seq<string>, ignoredKeys: seq<string>, state: Option<State>)

  // ---------- what is refused ----------

  predicate IsSpace(c: char) {
    var u := c as int;
    || 9 <= u <= 13 || u == 32 || u == 0xa0 || u == 0x1680 || 0x2000 <= u <= 0x200a
    || u == 0x2028 || u == 0x2029 || u == 0x202f || u == 0x205f || u == 0x3000 || u == 0xfeff
  }

  predicate Blank(s: string) { forall i :: 0 <= i < |s| ==> IsSpace(s[i]) }

  predicate ValidDate(s: Stamp) { !Blank(s.text) && s.time.Some? }

  predicate ForbiddenKey(key: string) { Blank(key) || key in ["__proto__", "constructor", "prototype"] }

  predicate ValidEntries(values: seq<(string, Value)>) {
    && |values| > 0
    && forall i :: 0 <= i < |values| ==> !ForbiddenKey(values[i].0) && !values[i].1.Malformed?
  }

  predicate ValidPolicy(policy: Option<Policy>, o: Observation) {
    policy.Some? && policy.value.deviceId == o.deviceId && policy.value.allowedSourcesByField.Some?
  }

  // What can be said without the current state.
  predicate ValidObservation(o: Observation) {
    && !Blank(o.deviceId) && !Blank(o.sourceId)
    && ValidDate(o.receivedAt)
    && (o.measuredAt.Some? ==>
         ValidDate(o.measuredAt.value) && o.measuredAt.value.time.value <= o.receivedAt.time.value)
    && o.values.Some? && ValidEntries(o.values.value)
  }

  function OrderAt(o: Observation): Stamp { if o.measuredAt.Some? then o.measuredAt.value else o.receivedAt }

  predicate Authorised(allowed: map<string, seq<string>>, key: string, sourceId: string) {
    key in allowed && sourceId in allowed[key]
  }

  function FieldOf(o: Observation, v: Value): Field {
    Field(v, o.sourceId, o.evidenceId, o.receivedAt, o.measuredAt, OrderAt(o))
  }

  // Not newer than what is there; an order time that does not parse never holds a reading back.
  predicate Stale(fields: map<string, Field>, key: string, time: int) {
    key in fields && fields[key].orderAt.time.Some? && time <= fields[key].orderAt.time.value
  }

  predicate Taken(fields: map<string, Field>, o: Observation, allowed: map<string, seq<string>>, key: string)
    requires ValidObservation(o)
  {
    Authorised(allowed, key, o.sourceId) && !Stale(fields, key, OrderAt(o).time.value)
  }

  // ---------- one observation ----------

  // The first n entries, in order.
  function FieldsAfter(fields: map<string, Field>, o: Observation, allowed: map<string, seq<string>>,
      n: nat): map<string, Field>
    requires ValidObservation(o) && n <= |o.values.value|
  {
    if n == 0 then fields
    else
      var before := FieldsAfter(fields, o, allowed, n - 1);
      var (key, v) := o.values.value[n - 1];
      if Taken(before, o, allowed, key) then before[key := FieldOf(o, v)] else before
  }

  function KeysTaken(fields: map<string, Field>, o: Observation, allowed: map<string, seq<string>>, n: nat,
      taken: bool): seq<string>
    requires ValidObservation(o) && n <= |o.values.value|
  {
    if n == 0 then []
    else
      var key := o.values.value[n - 1].0;
      KeysTaken(fields, o, allowed, n - 1, taken)
      + if Taken(FieldsAfter(fields, o, allowed, n - 1), o, allowed, key) == taken then [key] else []
  }

  ghost predicate SomeUnauthorised(o: Observation, allowed: map<string, seq<string>>, n: nat)
    requires o.values.Some? && n <= |o.values.value|
  {
    exists i :: 0 <= i < n && !Authorised(allowed, o.values.value[i].0, o.sourceId)
  }

  ghost function Process(current: Option<State>, o: Observation, policy: Option<Policy>): Decision {
    if !ValidPolicy(policy, o) then Decision(InvalidPolicy, [], [], current)
    else if !ValidObservation(o) || (current.Some? && current.value.deviceId != o.deviceId) then
      Decision(InvalidObservation, [], [], current)
    else
      var fields := if current.Some? then current.value.fields else map[];
      var allowed := policy.value.allowedSourcesByField.value;
      var n := |o.values.value|;
      var updated := KeysTaken(fields, o, allowed, n, true);
      Decision(if |updated| > 0 then Accepted
               else if SomeUnauthorised(o, allowed, n) then SourceNotAuthorized else StaleObservation,
               updated, KeysTaken(fields, o, allowed, n, false),
               Some(State(o.deviceId, FieldsAfter(fields, o, allowed, n))))
  }

  method CheckEntries(values: seq<(string, Value)>) returns (valid: bool)
    ensures valid <==> ValidEntries(values)
  {
    if |values| == 0 {
      return false;
    }
    for i := 0 to |values|
      invariant forall k :: 0 <= k < i ==> !ForbiddenKey(values[k].0) && !values[k].1.Malformed?
    {
      if ForbiddenKey(values[i].0) || values[i].1.Malformed? {
        return false;
      }
    }
    return true;
  }

  method ProcessDeviceObservation(current: Option<State>, o: Observation, policy: Option<Policy>)
    returns (d: Decision)
    ensures d == Process(current, o, policy)
  {
    if !ValidPolicy(policy, o) {
      return Decision(InvalidPolicy, [], [], current);
    }
    if Blank(o.deviceId) || Blank(o.sourceId) || !ValidDate(o.receivedAt)
       || (o.measuredAt.Some? && !ValidDate(o.measuredAt.value))
       || (current.Some? && current.value.deviceId != o.deviceId) {
      return Decision(InvalidObservation, [], [], current);
    }
    var receivedTime := o.receivedAt.time.value;
    if o.measuredAt.Some? && o.measuredAt.value.time.value > receivedTime {
      return Decision(InvalidObservation, [], [], current);
    }
    if o.values.None? {
      return Decision(InvalidObservation, [], [], current);
    }
    var entries := o.values.value;
    var valid := CheckEntries(entries);
    if !valid {
      return Decision(InvalidObservation, [], [], current);
    }
    d := TakeEntries(current, o, policy);
  }

  // The loop over the entries of an observation that passed the checks.
  method TakeEntries(current: Option<State>, o: Observation, policy: Option<Policy>) returns (d: Decision)
    requires ValidPolicy(policy, o) && ValidObservation(o) && (current.Some? ==> current.value.deviceId == o.deviceId)
    ensures d == Process(current, o, policy)
  {
    hide Blank, ValidEntries, Authorised, Stale;
    var entries := o.values.value;
    var allowed := policy.value.allowedSourcesByField.value;
    var orderAt := if o.measuredAt.Some? then o.measuredAt.value else o.receivedAt;
    var orderTime := orderAt.time.value;
    var start := if current.Some? then current.value.fields else map[];
    var fields := start;
    var updatedKeys: seq<string>, ignoredKeys: seq<string>, unauthorizedKeys: seq<string> := [], [], [];
    for i := 0 to |entries|
      invariant fields == FieldsAfter(start, o, allowed, i)
      invariant updatedKeys == KeysTaken(start, o, allowed, i, true)
      invariant ignoredKeys == KeysTaken(start, o, allowed, i, false)
      invariant |unauthorizedKeys| > 0 <==> SomeUnauthorised(o, allowed, i)
    {
      var (key, value) := entries[i];
      if !Authorised(allowed, key, o.sourceId) {
        unauthorizedKeys := unauthorizedKeys + [key];
        ignoredKeys := ignoredKeys + [key];
      } else if Stale(fields, key, orderTime) {
        ignoredKeys := ignoredKeys + [key];
      } else {
        fields := fields[key := Field(value, o.sourceId, o.evidenceId, o.receivedAt, o.measuredAt, orderAt)];
        updatedKeys := updatedKeys + [key];
      }
    }
    var reason := if |updatedKeys| > 0 then Accepted
                  else if |unauthorizedKeys| > 0 then SourceNotAuthorized else StaleObservation;
    d := Decision(reason, updatedKeys, ignoredKeys, Some(State(o.deviceId, fields)));
  }

  // ---------- one field at a time ----------

  // The keys of an object are distinct.
  ghost predicate IsObject(o: Observation) {
    o.values.Some? ==> forall i, j :: 0 <= i < j < |o.values.value| ==> o.values.value[i].0 != o.values.value[j].0
  }

  function FieldAt(fields: map<string, Field>, key: string): Option<Field> {
    if key in fields then Some(fields[key]) else None
  }

  function Fields(state: Option<State>): map<string, Field> { if state.Some? then state.value.fields else map[] }

  // The reading that the first n entries offer for a field, if its source is authorised for it.
  function OfferOf(o: Observation, allowed: map<string, seq<string>>, n: nat, key: string): Option<Field>
    requires o.values.Some? && n <= |o.values.value|
  {
    if n == 0 then None
    else if o.values.value[n - 1].0 == key then
      if Authorised(allowed, key, o.sourceId) then Some(FieldOf(o, o.values.value[n - 1].1)) else None
    else OfferOf(o, allowed, n - 1, key)
  }

  function Offer(policy: Option<Policy>, o: Observation, key: string): Option<Field> {
    if ValidPolicy(policy, o) && ValidObservation(o)
    then OfferOf(o, policy.value.allowedSourcesByField.value, |o.values.value|, key)
    else None
  }

  predicate Newer(f: Field, than: Option<Field>) {
    than.None? || than.value.orderAt.time.None?
      || (f.orderAt.time.Some? && f.orderAt.time.value > than.value.orderAt.time.value)
  }

  function Replace(previous: Option<Field>, offer: Option<Field>): Option<Field> {
    if offer.Some? && Newer(offer.value, previous) then offer else previous
  }

  lemma {:induction false} NotYetOffered(o: Observation, allowed: map<string, seq<string>>, n: nat, key: string)
    requires o.values.Some? && n <= |o.values.value| && forall i :: 0 <= i < n ==> o.values.value[i].0 != key
    ensures OfferOf(o, allowed, n, key).None?
  {
    if n > 0 {
      NotYetOffered(o, allowed, n - 1, key);
    }
  }

  // Every entry acts on its own field only.
  lemma {:induction false} EntriesPerField(fields: map<string, Field>, o: Observation,
      allowed: map<string, seq<string>>, n: nat, key: string)
    requires IsObject(o) && ValidObservation(o) && n <= |o.values.value|
    ensures FieldAt(FieldsAfter(fields, o, allowed, n), key)
            == Replace(FieldAt(fields, key), OfferOf(o, allowed, n, key))
  {
    hide Blank, ValidEntries, Authorised;
    if n > 0 {
      EntriesPerField(fields, o, allowed, n - 1, key);
      if o.values.value[n - 1].0 == key {
        NotYetOffered(o, allowed, n - 1, key);
      }
    }
  }

  // What an observation does to one field, whatever the state.
  lemma {:induction false} ProcessPerField(current: Option<State>, o: Observation, policy: Option<Policy>,
      key: string)
    requires IsObject(o) && (current.Some? && policy.Some? ==> current.value.deviceId == policy.value.deviceId)
    ensures FieldAt(Fields(Process(current, o, policy).state), key)
            == Replace(FieldAt(Fields(current), key), Offer(policy, o, key))
  {
    hide FieldsAfter, OfferOf, Replace, Blank, ValidEntries, KeysTaken, SomeUnauthorised;
    NothingOffered(FieldAt(Fields(current), key));
    if ValidPolicy(policy, o) && ValidObservation(o) {
      EntriesPerField(Fields(current), o, policy.value.allowedSourcesByField.value, |o.values.value|, key);
    }
  }

  lemma {:induction false} NothingOffered(previous: Option<Field>)
    ensures Replace(previous, None) == previous
  {
  }

  // A field never disappears, and only a reading with a greater order time replaces it.
  lemma {:induction false} OrderTimesIncrease(current: Option<State>, o: Observation, policy: Option<Policy>,
      key: string)
    requires IsObject(o) && (current.Some? && policy.Some? ==> current.value.deviceId == policy.value.deviceId)
    requires key in Fields(current) && Fields(current)[key].orderAt.time.Some?
    ensures var after := Fields(Process(current, o, policy).state);
            && key in after
            && (after[key] == Fields(current)[key]
                || (after[key].orderAt.time.Some?
                    && after[key].orderAt.time.value > Fields(current)[key].orderAt.time.value))
  {
    hide Process, Offer;
    ProcessPerField(current, o, policy, key);
  }

  // ---------- runs with a fixed policy ----------

  ghost function Run(policy: Option<Policy>, os: seq<Observation>): Option<State> {
    if |os| == 0 then None else Process(Run(policy, os[..|os| - 1]), os[|os| - 1], policy).state
  }

  ghost predicate Objects(os: seq<Observation>) { forall o :: o in os ==> IsObject(o) }

  // When the reading was measured, or else received.
  function ReadAt(o: Observation): Option<int> {
    match o.measuredAt
    case Some(measured) => measured.time
    case None => o.receivedAt.time
  }

  /**
   What an observation offers for a field: the value under that key, from a valid observation of the
   policy's device whose source the policy allows for the key, stamped with the time of its measurement,
   or of its receipt when it carries none.
   */
  lemma {:induction false} OfferExactly(policy: Option<Policy>, o: Observation, key: string, f: Field)
    requires IsObject(o)
    ensures Offer(policy, o, key) == Some(f)
        <==> && ValidPolicy(policy, o) && ValidObservation(o)
             && (key, f.value) in o.values.value
             && (var allowed := policy.value.allowedSourcesByField.value; key in allowed && o.sourceId in allowed[key])
             && f.sourceId == o.sourceId && f.evidenceId == o.evidenceId
             && f.receivedAt == o.receivedAt && f.measuredAt == o.measuredAt
             && f.orderAt == (match o.measuredAt case Some(measured) => measured case None => o.receivedAt)
  {
    hide Blank, ValidEntries, OfferOf;
    if ValidPolicy(policy, o) && ValidObservation(o) {
      var allowed, entries := policy.value.allowedSourcesByField.value, o.values.value;
      if i :| 0 <= i < |entries| && entries[i].0 == key {
        OfferOfEntry(o, allowed, |entries|, i);
        assert forall v :: (key, v) in entries ==> v == entries[i].1;
        assert entries[i] == (key, entries[i].1);
      } else {
        NotYetOffered(o, allowed, |entries|, key);
      }
    }
  }

  lemma {:induction false} OfferOfEntry(o: Observation, allowed: map<string, seq<string>>, n: nat, i: nat)
    requires IsObject(o) && o.values.Some? && i < n <= |o.values.value|
    ensures OfferOf(o, allowed, n, o.values.value[i].0)
         == if Authorised(allowed, o.values.value[i].0, o.sourceId) then Some(FieldOf(o, o.values.value[i].1)) else None
  {
    if i < n - 1 {
      OfferOfEntry(o, allowed, n - 1, i);
    }
  }

  lemma {:induction false} OfferHasTime(policy: Option<Policy>, o: Observation, key: string)
    requires Offer(policy, o, key).Some?
    ensures ReadAt(o).Some? && Offer(policy, o, key).value.orderAt.time == ReadAt(o)
  {
    hide Blank, ValidEntries, Authorised;
    OfferIsOrdered(o, policy.value.allowedSourcesByField.value, |o.values.value|, key);
  }

  lemma {:induction false} OfferIsOrdered(o: Observation, allowed: map<string, seq<string>>, n: nat, key: string)
    requires o.values.Some? && n <= |o.values.value| && OfferOf(o, allowed, n, key).Some?
    ensures OfferOf(o, allowed, n, key).value.orderAt == OrderAt(o)
  {
    if o.values.value[n - 1].0 != key {
      OfferIsOrdered(o, allowed, n - 1, key);
    }
  }

  // The field is a reading that was offered, none offered was read later, and none offered before it as late.
  ghost predicate Latest(policy: Option<Policy>, os: seq<Observation>, key: string, f: Field) {
    exists i :: 0 <= i < |os| && LatestAt(policy, os, key, f, i)
  }

  ghost predicate LatestAt(policy: Option<Policy>, os: seq<Observation>, key: string, f: Field, i: nat)
    requires i < |os|
  {
    && Offer(policy, os[i], key) == Some(f) && ReadAt(os[i]).Some?
    && forall j :: 0 <= j < |os| && Offer(policy, os[j], key).Some? ==>
         NotAbove(ReadAt(os[j]), ReadAt(os[i]).value, j < i)
  }

  predicate NotAbove(time: Option<int>, than: int, strictly: bool) {
    time.Some? && (if strictly then time.value < than else time.value <= than)
  }

  // Every offer carries the time of its observation.
  ghost predicate OffersTimed(policy: Option<Policy>, os: seq<Observation>, key: string) {
    forall j :: 0 <= j < |os| && Offer(policy, os[j], key).Some? ==>
      ReadAt(os[j]).Some? && Offer(policy, os[j], key).value.orderAt.time == ReadAt(os[j])
  }

  lemma {:induction false} OffersAreTimed(policy: Option<Policy>, os: seq<Observation>, key: string)
    ensures OffersTimed(policy, os, key)
  {
    hide Offer, ReadAt;
    forall j | 0 <= j < |os| && Offer(policy, os[j], key).Some?
      ensures ReadAt(os[j]).Some? && Offer(policy, os[j], key).value.orderAt.time == ReadAt(os[j])
    {
      OfferHasTime(policy, os[j], key);
    }
  }

  ghost predicate NeverOffered(policy: Option<Policy>, os: seq<Observation>, key: string) {
    forall o :: o in os ==> Offer(policy, o, key).None?
  }

  lemma {:induction false} RunDevice(policy: Option<Policy>, os: seq<Observation>)
    ensures Run(policy, os).Some? ==> policy.Some? && Run(policy, os).value.deviceId == policy.value.deviceId
    ensures Run(policy, os).Some? <==> exists o :: o in os && ValidPolicy(policy, o) && ValidObservation(o)
  {
    hide ValidObservation, FieldsAfter, KeysTaken, SomeUnauthorised;
    if |os| > 0 {
      var front, last := os[..|os| - 1], os[|os| - 1];
      assert os == front + [last];
      RunDevice(policy, front);
    }
  }

  // After any run a field holds exactly the earliest-arriving of its latest authorised readings.
  lemma {:induction false} RunHoldsLatest(policy: Option<Policy>, os: seq<Observation>, key: string)
    requires Objects(os)
    ensures var held := FieldAt(Fields(Run(policy, os)), key);
            && (held.None? ==> NeverOffered(policy, os, key))
            && (held.Some? ==> Latest(policy, os, key, held.value))
  {
    hide Process, Offer, Latest, NeverOffered, OffersTimed;
    if |os| == 0 {
      EmptyRun(policy, key);
    } else {
      var front, last := os[..|os| - 1], os[|os| - 1];
      RunHoldsLatest(policy, front, key);
      RunDevice(policy, front);
      ProcessPerField(Run(policy, front), last, policy, key);
      OffersAreTimed(policy, os, key);
      assert front + [last] == os;
      LatestStep(policy, front, last, key, FieldAt(Fields(Run(policy, front)), key));
    }
  }

  lemma {:induction false} EmptyRun(policy: Option<Policy>, key: string)
    ensures NeverOffered(policy, [], key)
  {
  }

  lemma {:induction false} LatestStep(policy: Option<Policy>, front: seq<Observation>, last: Observation,
      key: string, held: Option<Field>)
    requires held.None? ==> NeverOffered(policy, front, key)
    requires held.Some? ==> Latest(policy, front, key, held.value)
    requires OffersTimed(policy, front + [last], key)
    ensures var next := Replace(held, Offer(policy, last, key));
            && (next.None? ==> NeverOffered(policy, front + [last], key))
            && (next.Some? ==> Latest(policy, front + [last], key, next.value))
  {
    hide Offer, ReadAt;
    var os, offer := front + [last], Offer(policy, last, key);
    var next := Replace(held, offer);
    assert os[|front|] == last && forall i :: 0 <= i < |front| ==> os[i] == front[i];
    if held.Some? {
      var i :| 0 <= i < |front| && LatestAt(policy, front, key, held.value, i);
      assert Offer(policy, os[i], key) == held;
      if next == held {
        assert LatestAt(policy, os, key, held.value, i);
      } else {
        assert LatestAt(policy, os, key, next.value, |front|);
      }
    } else if offer.Some? {
      assert LatestAt(policy, os, key, offer.value, |front|);
    }
  }

  lemma {:induction false} LatestIsUnique(policy: Option<Policy>, os: seq<Observation>, key: string, f: Field,
      g: Field)
    requires Latest(policy, os, key, f) && Latest(policy, os, key, g)
    ensures f == g
  {
    hide Offer;
  }

  // Readings of one field of the same time are the same reading.
  ghost predicate DistinctTimes(policy: Option<Policy>, os: seq<Observation>) {
    forall o, p, key :: o in os && p in os && BothOffer(policy, o, p, key) && ReadAt(o) == ReadAt(p) ==>
      Offer(policy, o, key) == Offer(policy, p, key)
  }

  predicate BothOffer(policy: Option<Policy>, o: Observation, p: Observation, key: string) {
    Offer(policy, o, key).Some? && Offer(policy, p, key).Some?
  }

  // All delivery orders of the same readings, however often repeated, end in the same state.
  lemma {:induction false} OrderDoesNotMatter(policy: Option<Policy>, a: seq<Observation>, b: seq<Observation>)
    requires Objects(a) && (forall o :: o in a <==> o in b) && DistinctTimes(policy, a)
    ensures Run(policy, a) == Run(policy, b)
  {
    hide Run, Offer, ValidObservation, ValidPolicy;
    RunDevice(policy, a);
    RunDevice(policy, b);
    forall key
      ensures FieldAt(Fields(Run(policy, a)), key) == FieldAt(Fields(Run(policy, b)), key)
    {
      SameField(policy, a, b, key);
    }
    SameFields(Fields(Run(policy, a)), Fields(Run(policy, b)));
  }

  lemma {:induction false} SameFields(a: map<string, Field>, b: map<string, Field>)
    requires forall key :: FieldAt(a, key) == FieldAt(b, key)
    ensures a == b
  {
    assert forall key :: key in a <==> FieldAt(a, key).Some?;
    assert forall key :: key in b <==> FieldAt(b, key).Some?;
    assert forall key :: key in a ==> a[key] == FieldAt(a, key).value;
  }

  lemma {:induction false} SameField(policy: Option<Policy>, a: seq<Observation>, b: seq<Observation>, key: string)
    requires Objects(a) && (forall o :: o in a <==> o in b) && DistinctTimes(policy, a)
    ensures FieldAt(Fields(Run(policy, a)), key) == FieldAt(Fields(Run(policy, b)), key)
  {
    hide Run, Offer, ReadAt, LatestAt, DistinctTimes, NotAbove;
    RunHoldsLatest(policy, a, key);
    RunHoldsLatest(policy, b, key);
    var f, g := FieldAt(Fields(Run(policy, a)), key), FieldAt(Fields(Run(policy, b)), key);
    assert forall j :: 0 <= j < |b| ==> b[j] in a;
    if f.Some? {
      var i :| 0 <= i < |a| && LatestAt(policy, a, key, f.value, i);
      assert a[i] in b;
      LatestOffered(policy, a, key, f.value, i);
      if g.Some? {
        var j :| 0 <= j < |b| && LatestAt(policy, b, key, g.value, j);
        SameLatest(policy, a, b, key, f.value, g.value, i, j);
      }
    } else if g.Some? {
      var j :| 0 <= j < |b| && LatestAt(policy, b, key, g.value, j);
      LatestOffered(policy, b, key, g.value, j);
    }
  }

  lemma {:induction false} LatestOffered(policy: Option<Policy>, os: seq<Observation>, key: string, f: Field, i: nat)
    requires i < |os| && LatestAt(policy, os, key, f, i)
    ensures Offer(policy, os[i], key) == Some(f)
  {
  }

  lemma {:induction false} SameLatest(policy: Option<Policy>, a: seq<Observation>, b: seq<Observation>, key: string,
      f: Field, g: Field, i: nat, j: nat)
    requires (forall o :: o in a <==> o in b) && DistinctTimes(policy, a)
    requires i < |a| && LatestAt(policy, a, key, f, i) && j < |b| && LatestAt(policy, b, key, g, j)
    ensures f == g
  {
    hide Offer, ReadAt;
    assert b[j] in a && a[i] in b;
    var i' :| 0 <= i' < |a| && a[i'] == b[j];
    var j' :| 0 <= j' < |b| && b[j'] == a[i];
    assert ReadAt(a[i']).value <= ReadAt(a[i]).value && ReadAt(b[j']).value <= ReadAt(b[j]).value;
    assert BothOffer(policy, a[i], b[j], key);
  }

  // ---------- what the decision reports ----------

  // The white space and line ends of section 12 of the ECMAScript language.
  const SPACES: seq<int> := [0x9, 0xa, 0xb, 0xc, 0xd, 0x20, 0xa0, 0x1680, 0x2000, 0x2001, 0x2002, 0x2003, 0x2004,
                             0x2005, 0x2006, 0x2007, 0x2008, 0x2009, 0x200a, 0x2028, 0x2029, 0x202f, 0x205f,
                             0x3000, 0xfeff]

  predicate Missing(s: string) { forall i :: 0 <= i < |s| ==> s[i] as int in SPACES }

  lemma {:induction false} BlankIsMissing(s: string)
    ensures Blank(s) <==> Missing(s)
  {
  }

  // A key that is white space only, or that every JavaScript object has.
  predicate UnusableKey(key: string) {
    Missing(key) || key == "__proto__" || key == "constructor" || key == "prototype"
  }

  predicate NoDate(s: Stamp) { Missing(s.text) || s.time.None? }

  // What makes an observation invalid.
  ghost predicate Defect(current: Option<State>, o: Observation) {
    || Missing(o.deviceId) || Missing(o.sourceId) || NoDate(o.receivedAt)
    || (o.measuredAt.Some? && (NoDate(o.measuredAt.value) || LaterThan(o.measuredAt.value, o.receivedAt)))
    || (current.Some? && current.value.deviceId != o.deviceId)
    || o.values.None? || o.values.value == []
    || exists i :: 0 <= i < |o.values.value| && BadEntry(o.values.value[i])
  }

  predicate BadEntry(entry: (string, Value)) { UnusableKey(entry.0) || entry.1 == Malformed }

  predicate LaterThan(s: Stamp, t: Stamp) { s.time.Some? && t.time.Some? && t.time.value < s.time.value }

  lemma {:induction false} DefectIsInvalid(current: Option<State>, o: Observation)
    ensures Defect(current, o)
        <==> !ValidObservation(o) || (current.Some? && current.value.deviceId != o.deviceId)
  {
    hide Blank, Missing;
    BlankIsMissing(o.deviceId);
    BlankIsMissing(o.sourceId);
    BlankIsMissing(o.receivedAt.text);
    if o.measuredAt.Some? {
      BlankIsMissing(o.measuredAt.value.text);
    }
    if o.values.Some? {
      forall i | 0 <= i < |o.values.value|
        ensures BadEntry(o.values.value[i]) == (ForbiddenKey(o.values.value[i].0) || o.values.value[i].1.Malformed?)
      {
        BlankIsMissing(o.values.value[i].0);
      }
    }
  }

  // The policy speaks of another device, or names no sources.
  predicate NoPolicy(o: Observation, policy: Option<Policy>) {
    policy.None? || policy.value.deviceId != o.deviceId || policy.value.allowedSourcesByField.None?
  }

  ghost predicate SomeSourceBarred(o: Observation, policy: Policy) {
    && o.values.Some? && policy.allowedSourcesByField.Some?
    && exists i :: 0 <= i < |o.values.value|
                   && Barred(o.values.value[i].0, o.sourceId, policy.allowedSourcesByField.value)
  }

  predicate Barred(key: string, sourceId: string, allowed: map<string, seq<string>>) {
    key in allowed ==> sourceId !in allowed[key]
  }

  /** Each reason, exactly. What is refused leaves the state as it was and reports no key. */
  lemma {:induction false} ReasonTells(current: Option<State>, o: Observation, policy: Option<Policy>)
    ensures var d := Process(current, o, policy);
            && (d.reason == InvalidPolicy <==> NoPolicy(o, policy))
            && (d.reason == InvalidObservation <==> !NoPolicy(o, policy) && Defect(current, o))
            && (d.reason == Accepted <==> |d.updatedKeys| > 0)
            && (d.reason == SourceNotAuthorized
                <==> && !NoPolicy(o, policy) && !Defect(current, o)
                     && d.updatedKeys == [] && SomeSourceBarred(o, policy.value))
            && (NoPolicy(o, policy) || Defect(current, o) ==>
                 d.state == current && d.updatedKeys == [] && d.ignoredKeys == [])
  {
    hide Blank, ValidEntries, Defect, FieldsAfter, KeysTaken;
    DefectIsInvalid(current, o);
    if ValidPolicy(policy, o) && ValidObservation(o) {
      BarredIsUnauthorised(o, policy.value);
    }
  }

  lemma {:induction false} BarredIsUnauthorised(o: Observation, policy: Policy)
    requires o.values.Some? && policy.allowedSourcesByField.Some?
    ensures SomeSourceBarred(o, policy) <==> SomeUnauthorised(o, policy.allowedSourcesByField.value, |o.values.value|)
  {
    var allowed, entries := policy.allowedSourcesByField.value, o.values.value;
    assert forall i :: 0 <= i < |entries| ==>
      Barred(entries[i].0, o.sourceId, allowed) == !Authorised(allowed, entries[i].0, o.sourceId);
  }

  // The updated keys are exactly the fields that changed, for a state whose order times parse.
  lemma {:induction false} UpdatedKeysChanged(fields: map<string, Field>, o: Observation,
      allowed: map<string, seq<string>>, n: nat, key: string)
    requires IsObject(o) && ValidObservation(o) && n <= |o.values.value|
    requires key in fields ==> fields[key].orderAt.time.Some?
    ensures key in KeysTaken(fields, o, allowed, n, true)
            <==> FieldAt(FieldsAfter(fields, o, allowed, n), key) != FieldAt(fields, key)
  {
    hide Blank, ValidEntries, Authorised;
    if n > 0 {
      UpdatedKeysChanged(fields, o, allowed, n - 1, key);
      if o.values.value[n - 1].0 == key {
        NotYetOffered(o, allowed, n - 1, key);
        EntriesPerField(fields, o, allowed, n - 1, key);
      }
    }
  }

  function Keys(entries: seq<(string, Value)>): seq<string> {
    if |entries| == 0 then [] else Keys(entries[..|entries| - 1]) + [entries[|entries| - 1].0]
  }

  // Every key is reported exactly once, as updated or as ignored.
  lemma {:induction false} EveryKeyReported(fields: map<string, Field>, o: Observation,
      allowed: map<string, seq<string>>, n: nat)
    requires ValidObservation(o) && n <= |o.values.value|
    ensures multiset(KeysTaken(fields, o, allowed, n, true)) + multiset(KeysTaken(fields, o, allowed, n, false))
            == multiset(Keys(o.values.value[..n]))
  {
    hide Blank, ValidEntries, Taken, FieldsAfter, KeysTaken, Keys;
    if n == 0 {
      NoKeys(fields, o, allowed);
    } else {
      EveryKeyReported(fields, o, allowed, n - 1);
      KeysStep(fields, o, allowed, n);
      OneMore(KeysTaken(fields, o, allowed, n - 1, true), KeysTaken(fields, o, allowed, n - 1, false),
              Keys(o.values.value[..n - 1]), o.values.value[n - 1].0);
    }
  }

  lemma {:induction false} NoKeys(fields: map<string, Field>, o: Observation, allowed: map<string, seq<string>>)
    requires ValidObservation(o)
    ensures forall taken :: KeysTaken(fields, o, allowed, 0, taken) == []
    ensures Keys(o.values.value[..0]) == []
  {
  }

  lemma {:induction false} KeysStep(fields: map<string, Field>, o: Observation, allowed: map<string, seq<string>>,
      n: nat)
    requires ValidObservation(o) && 0 < n <= |o.values.value|
    ensures var key := o.values.value[n - 1].0;
            var taken := Taken(FieldsAfter(fields, o, allowed, n - 1), o, allowed, key);
            && Keys(o.values.value[..n]) == Keys(o.values.value[..n - 1]) + [key]
            && KeysTaken(fields, o, allowed, n, true)
               == KeysTaken(fields, o, allowed, n - 1, true) + (if taken then [key] else [])
            && KeysTaken(fields, o, allowed, n, false)
               == KeysTaken(fields, o, allowed, n - 1, false) + (if taken then [] else [key])
  {
    hide Blank, ValidEntries, Taken, FieldsAfter;
    assert o.values.value[..n][..n - 1] == o.values.value[..n - 1];
  }

  lemma {:induction false} OneMore(a: seq<string>, b: seq<string>, all: seq<string>, key: string)
    requires multiset(a) + multiset(b) == multiset(all)
    ensures multiset(a + [key]) + multiset(b + []) == multiset(all + [key])
    ensures multiset(a + []) + multiset(b + [key]) == multiset(all + [key])
  {
    assert a + [] == a && b + [] == b;
  }

  /**
   The keys of a decision: each key of an observation that is looked at is reported once, as updated or
   as ignored, and the updated ones are exactly the fields that changed.
   */
  lemma {:induction false} DecisionKeys(current: Option<State>, o: Observation, policy: Option<Policy>, key: string)
    requires IsObject(o) && !NoPolicy(o, policy) && !Defect(current, o)
    requires key in Fields(current) ==> Fields(current)[key].orderAt.time.Some?
    ensures o.values.Some?
    ensures var d := Process(current, o, policy);
            && multiset(d.updatedKeys) + multiset(d.ignoredKeys) == multiset(Keys(o.values.value))
            && (key in d.updatedKeys <==> FieldAt(Fields(d.state), key) != FieldAt(Fields(current), key))
  {
    hide Blank, ValidEntries, FieldsAfter, KeysTaken, Keys, SomeUnauthorised, Defect;
    DefectIsInvalid(current, o);
    var fields, allowed, n := Fields(current), policy.value.allowedSourcesByField.value, |o.values.value|;
    EveryKeyReported(fields, o, allowed, n);
    assert o.values.value[..n] == o.values.value;
    UpdatedKeysChanged(fields, o, allowed, n, key);
  }

  // ---------- replays ----------

  lemma {:induction false} NoneTaken(fields: map<string, Field>, o: Observation, allowed: map<string, seq<string>>,
      n: nat)
    requires ValidObservation(o) && n <= |o.values.value|
    requires forall i :: 0 <= i < n ==> !Taken(fields, o, allowed, o.values.value[i].0)
    ensures FieldsAfter(fields, o, allowed, n) == fields && KeysTaken(fields, o, allowed, n, true) == []
  {
    hide ValidObservation, Taken;
    if n > 0 {
      NoneTaken(fields, o, allowed, n - 1);
    }
  }

  // Delivering an observation again, at any later time, changes nothing and updates no key.
  lemma {:induction false} ReplayChangesNothing(policy: Option<Policy>, os: seq<Observation>, o: Observation)
    requires Objects(os) && o in os
    ensures var d := Process(Run(policy, os), o, policy);
            d.state == Run(policy, os) && d.updatedKeys == [] && d.reason != Accepted
  {
    hide Blank, ValidEntries, Run, FieldsAfter, KeysTaken, Taken, OfferOf, SomeUnauthorised;
    RunDevice(policy, os);
    if ValidPolicy(policy, o) && ValidObservation(o) {
      var fields, allowed := Fields(Run(policy, os)), policy.value.allowedSourcesByField.value;
      var n := |o.values.value|;
      forall i | 0 <= i < n
        ensures !Taken(fields, o, allowed, o.values.value[i].0)
      {
        ReplayedEntry(policy, os, o, i);
      }
      NoneTaken(fields, o, allowed, n);
    }
  }

  lemma {:induction false} ReplayedEntry(policy: Option<Policy>, os: seq<Observation>, o: Observation, i: nat)
    requires Objects(os) && o in os && ValidPolicy(policy, o) && ValidObservation(o) && i < |o.values.value|
    ensures !Taken(Fields(Run(policy, os)), o, policy.value.allowedSourcesByField.value, o.values.value[i].0)
  {
    hide Run, OfferOf, Authorised, Blank, ValidEntries;
    var key, allowed := o.values.value[i].0, policy.value.allowedSourcesByField.value;
    if Authorised(allowed, key, o.sourceId) {
      OfferOfEntry(o, allowed, |o.values.value|, i);
      RunHoldsLatest(policy, os, key);
      OffersAreTimed(policy, os, key);
      var j :| 0 <= j < |os| && os[j] == o;
      assert Offer(policy, os[j], key) == Some(FieldOf(o, o.values.value[i].1));
    }
  }
}
