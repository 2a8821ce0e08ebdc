/**
 Feed propagation over an electrical panel: which devices are live, and the feed diagnostics that
 the analysis derives from it. Slots and widths are exact reals.
 */
module PanelFeed {
  import opened Wrappers

  datatype Device = Device(uid: string, railId: string, slot: real, widthModules: real, isMain: bool)

  datatype Comb = Comb(sourceUid: Option<string>, railId: string, startSlot: real, endSlot: real)

  datatype Wire = Wire(kind: string, from: string, to: string)

  datatype Panel = Panel(devices: seq<Device>, combs: seq<Comb>, wires: seq<Wire>)

  // ---------- what feeds what ----------

  // A JavaScript truth test on an optional string.
  predicate Truthy(s: Option<string>) { s.Some? && s.value != "" }

  predicate RangesOverlap(aStart: real, aEnd: real, bStart: real, bEnd: real) { aStart <= bEnd && bStart <= aEnd }

  predicate StartsWith(s: string, prefix: string) { prefix <= s }

  predicate LiveWire(w: Wire, uid: string) {
    && w.kind == "L"
    && (|| (w.from == "system:feed:L" && StartsWith(w.to, uid + ":top:"))
        || (w.to == "system:feed:L" && StartsWith(w.from, uid + ":top:")))
  }

  predicate SystemLive(wires: seq<Wire>, uid: string) {
    exists i :: 0 <= i < |wires| && LiveWire(wires[i], uid)
  }

  // The comb carries its source's feed to the device, if the source is fed.
  predicate Carries(c: Comb, d: Device) {
    && Truthy(c.sourceUid)
    && d.uid != c.sourceUid.value
    && d.railId == c.railId
    && RangesOverlap(d.slot, d.slot + d.widthModules - 1.0, c.startSlot, c.endSlot)
  }

  ghost predicate Seed(p: Panel, uid: string) {
    exists d :: d in p.devices && d.uid == uid && SystemLive(p.wires, uid)
  }

  ghost predicate Link(p: Panel, u: string, v: string) {
    exists c, d :: c in p.combs && d in p.devices && Carries(c, d) && c.sourceUid == Some(u) && d.uid == v
  }

  // A chain of combs from a device with system feed.
  ghost predicate Path(p: Panel, path: seq<string>) {
    && |path| > 0 && Seed(p, path[0])
    && forall i :: 0 <= i < |path| - 1 ==> Link(p, path[i], path[i + 1])
  }

  ghost predicate Fed(p: Panel, uid: string) {
    exists path :: Path(p, path) && path[|path| - 1] == uid
  }

  // A terminal at the top of the device.
  ghost predicate TopOf(uid: string, end: string) { exists rest: string :: end == uid + ":top:" + rest }

  // Live wires join the system's live feed to a terminal at the top of the device, either way round.
  lemma {:induction false} LiveWireTells(w: Wire, uid: string)
    ensures LiveWire(w, uid)
        <==> && w.kind == "L"
             && ((w.from == "system:feed:L" && TopOf(uid, w.to)) || (TopOf(uid, w.from) && w.to == "system:feed:L"))
  {
    TopIsPrefix(uid, w.from);
    TopIsPrefix(uid, w.to);
  }

  lemma {:induction false} TopIsPrefix(uid: string, end: string)
    ensures StartsWith(end, uid + ":top:") <==> TopOf(uid, end)
  {
    var prefix := uid + ":top:";
    if prefix <= end {
      assert end == prefix + end[|prefix|..];
    }
  }

  // A comb feeds every other device of its rail unless one of the two ends before the other begins;
  // a device of width n that starts at slot s ends at slot s + n - 1.
  lemma {:induction false} CarriesTells(c: Comb, d: Device)
    ensures Carries(c, d)
        <==> && c.sourceUid.Some? && c.sourceUid != Some("") && c.sourceUid != Some(d.uid) && c.railId == d.railId
             && !(c.endSlot < d.slot) && !(d.slot + d.widthModules < c.startSlot + 1.0)
  {
  }

  // ---------- the fixed-point loop ----------

  // A JavaScript set in insertion order.
  predicate Distinct(s: seq<string>) { forall i, j :: 0 <= i < j < |s| ==> s[i] != s[j] }

  ghost predicate AllFed(p: Panel, out: seq<string>) { forall u :: u in out ==> Fed(p, u) }

  // The combs before the given one have nothing more to give.
  ghost predicate ClosedUnder(p: Panel, out: seq<string>, combs: int) {
    forall i, d :: 0 <= i < combs <= |p.combs| && d in p.devices && CarriesFrom(p.combs[i], d, out) ==> d.uid in out
  }

  predicate CarriesFrom(c: Comb, d: Device, out: seq<string>) { Carries(c, d) && c.sourceUid.value in out }

  ghost predicate Uids(p: Panel,
      out: seq<string>) { forall u :: u in out ==> exists d :: d in p.devices && d.uid == u }

  method DeviceHasSystemLive(wires: seq<Wire>, uid: string) returns (live: bool)
    ensures live <==> SystemLive(wires, uid)
  {
    for i := 0 to |wires|
      invariant forall k :: 0 <= k < i ==> !LiveWire(wires[k], uid)
    {
      if LiveWire(wires[i], uid) {
        return true;
      }
    }
    return false;
  }

  method SeedFeed(p: Panel) returns (out: seq<string>)
    ensures Distinct(out) && Uids(p, out) && AllFed(p, out)
    ensures forall u :: Seed(p, u) ==> u in out
  {
    hide SystemLive;
    out := [];
    for i := 0 to |p.devices|
      invariant Distinct(out) && Uids(p, out) && AllFed(p, out)
      invariant forall k :: 0 <= k < i && SystemLive(p.wires, p.devices[k].uid) ==> p.devices[k].uid in out
    {
      var d := p.devices[i];
      var live := DeviceHasSystemLive(p.wires, d.uid);
      if live && d.uid !in out {
        SeedIsFed(p, d);
        out := out + [d.uid];
      }
    }
  }

  lemma {:induction false} SeedIsFed(p: Panel, d: Device)
    requires d in p.devices && SystemLive(p.wires, d.uid)
    ensures Fed(p, d.uid)
  {
    var path := [d.uid];
    assert Path(p, path) && path[|path| - 1] == d.uid;
  }

  lemma {:induction false} LinkIsFed(p: Panel, u: string, v: string)
    requires Fed(p, u) && Link(p, u, v)
    ensures Fed(p, v)
  {
    var path :| Path(p, path) && path[|path| - 1] == u;
    var longer := path + [v];
    assert Path(p, longer) && longer[|longer| - 1] == v;
  }

  lemma {:induction false} CarriedIsFed(p: Panel, c: Comb, d: Device)
    requires c in p.combs && d in p.devices && Carries(c, d) && Fed(p, c.sourceUid.value)
    ensures Fed(p, d.uid)
  {
    hide Fed;
    LinkIsFed(p, c.sourceUid.value, d.uid);
  }

  // One pass over the combs: adds fed devices only, and when it adds none the set is closed.
  method Pass(p: Panel, out: seq<string>) returns (next: seq<string>, changed: bool)
    requires Distinct(out) && Uids(p, out) && AllFed(p, out)
    ensures Distinct(next) && Uids(p, next) && AllFed(p, next)
    ensures out <= next && (changed <==> |next| > |out|)
    ensures !changed ==> next == out && ClosedUnder(p, out, |p.combs|)
  {
    hide AllFed;
    next, changed := out, false;
    for i := 0 to |p.combs|
      invariant Distinct(next) && Uids(p, next) && AllFed(p, next)
      invariant out <= next && (changed <==> |next| > |out|)
      invariant !changed ==> ClosedUnder(p, out, i)
    {
      var comb := p.combs[i];
      if Truthy(comb.sourceUid) && comb.sourceUid.value in next {
        for k := 0 to |p.devices|
          invariant Distinct(next) && Uids(p, next) && AllFed(p, next)
          invariant out <= next && (changed <==> |next| > |out|)
          invariant comb.sourceUid.value in next
          invariant !changed ==> ClosedUnder(p, out, i)
          invariant !changed ==> forall j :: 0 <= j < k && Carries(comb, p.devices[j]) ==> p.devices[j].uid in out
        {
          var d := p.devices[k];
          if Carries(comb, d) && d.uid !in next {
            NextIsFed(p, next, comb, d);
            next := next + [d.uid];
            changed := true;
          }
        }
      }
    }
  }

  lemma {:induction false} NextIsFed(p: Panel, out: seq<string>, c: Comb, d: Device)
    requires AllFed(p, out) && c in p.combs && d in p.devices && Carries(c, d) && c.sourceUid.value in out
    ensures AllFed(p, out + [d.uid])
  {
    hide Fed;
    CarriedIsFed(p, c, d);
  }

  lemma {:induction false} NoMoreThanDevices(p: Panel, out: seq<string>)
    requires Distinct(out) && Uids(p, out)
    ensures |out| <= |p.devices|
  {
    var uids := set i | 0 <= i < |p.devices| :: p.devices[i].uid;
    ImageBound(p.devices, uids);
    var members := set u | u in out;
    DistinctCount(out);
    forall u | u in members
      ensures u in uids
    {
      var d :| d in p.devices && d.uid == u;
      var i :| 0 <= i < |p.devices| && p.devices[i] == d;
    }
    SubsetCount(members, uids);
  }

  lemma {:induction false} SubsetCount(a: set<string>, b: set<string>)
    requires a <= b
    ensures |a| <= |b|
  {
    if a != {} {
      var x :| x in a;
      SubsetCount(a - {x}, b - {x});
    }
  }

  lemma {:induction false} DistinctCount(s: seq<string>)
    requires Distinct(s)
    ensures |set u | u in s| == |s|
  {
    if |s| > 0 {
      var front, last := s[..|s| - 1], s[|s| - 1];
      DistinctCount(front);
      assert (set u | u in s) == (set u | u in front) + {last};
    }
  }

  lemma {:induction false} ImageBound(devices: seq<Device>, uids: set<string>)
    requires uids == set i | 0 <= i < |devices| :: devices[i].uid
    ensures |uids| <= |devices|
  {
    if |devices| > 0 {
      var front := devices[..|devices| - 1];
      var fewer := set i | 0 <= i < |front| :: front[i].uid;
      ImageBound(front, fewer);
      assert uids == fewer + {devices[|devices| - 1].uid};
    }
  }

  // The result holds exactly the fed devices, each once, after at most one pass more than there are devices.
  method BuildFedDeviceUids(p: Panel) returns (out: seq<string>, ghost passes: nat)
    ensures Distinct(out)
    ensures forall u :: u in out <==> Fed(p, u)
    ensures passes <= |p.devices| + 1
  {
    hide AllFed, Fed;
    out := SeedFeed(p);
    NoMoreThanDevices(p, out);
    var changed := true;
    passes := 0;
    while changed
      invariant Distinct(out) && Uids(p, out) && AllFed(p, out) && |out| <= |p.devices|
      invariant forall u :: Seed(p, u) ==> u in out
      invariant !changed ==> ClosedUnder(p, out, |p.combs|)
      invariant passes <= |out| + if changed then 0 else 1
      decreases changed, |p.devices| - |out|
    {
      out, changed := Pass(p, out);
      NoMoreThanDevices(p, out);
      passes := passes + 1;
    }
    FedAreIn(p, out);
  }

  lemma {:induction false} PathStaysIn(p: Panel, out: seq<string>, path: seq<string>)
    requires ClosedUnder(p, out, |p.combs|) && (forall u :: Seed(p, u) ==> u in out)
    requires Path(p, path)
    ensures path[|path| - 1] in out
  {
    if |path| > 1 {
      var shorter := path[..|path| - 1];
      assert Path(p, shorter);
      PathStaysIn(p, out, shorter);
      assert Link(p, path[|path| - 2], path[|path| - 1]);
      var c, d :| c in p.combs && d in p.devices && Carries(c, d) && c.sourceUid == Some(path[|path| - 2])
                  && d.uid == path[|path| - 1];
      var i :| 0 <= i < |p.combs| && p.combs[i] == c;
    }
  }

  lemma {:induction false} FedAreIn(p: Panel, out: seq<string>)
    requires ClosedUnder(p, out, |p.combs|) && (forall u :: Seed(p, u) ==> u in out)
    requires AllFed(p, out)
    ensures forall u :: u in out <==> Fed(p, u)
  {
    hide ClosedUnder, Seed, Link;
    forall u | Fed(p, u)
      ensures u in out
    {
      var path :| Path(p, path) && path[|path| - 1] == u;
      PathStaysIn(p, out, path);
    }
  }

  // ---------- the least closed set ----------

  ghost predicate Closed(p: Panel, fed: iset<string>) {
    && (forall u :: Seed(p, u) ==> u in fed)
    && (forall u, v :: u in fed && Link(p, u, v) ==> v in fed)
  }

  // The fed devices are closed under the combs, and every closed set holds them all.
  lemma {:induction false} FedIsLeast(p: Panel)
    ensures Closed(p, iset u | Fed(p, u))
    ensures forall fed: iset<string>, u :: Closed(p, fed) && Fed(p, u) ==> u in fed
  {
    hide Link, Path, Fed;
    forall u | Seed(p, u)
      ensures Fed(p, u)
    {
      var d :| d in p.devices && d.uid == u && SystemLive(p.wires, u);
      SeedIsFed(p, d);
    }
    forall u, v | Fed(p, u) && Link(p, u, v)
      ensures Fed(p, v)
    {
      LinkIsFed(p, u, v);
    }
    forall fed: iset<string>, u | Closed(p, fed) && Fed(p, u)
      ensures u in fed
    {
      FedIsInside(p, fed, u);
    }
  }

  lemma {:induction false} FedIsInside(p: Panel, fed: iset<string>, u: string)
    requires Closed(p, fed) && Fed(p, u)
    ensures u in fed
  {
    hide Seed, Link;
    var path :| Path(p, path) && path[|path| - 1] == u;
    PathIsInside(p, fed, path);
  }

  lemma {:induction false} PathIsInside(p: Panel, fed: iset<string>, path: seq<string>)
    requires Closed(p, fed) && Path(p, path)
    ensures path[|path| - 1] in fed
  {
    hide Seed, Link;
    if |path| > 1 {
      assert Path(p, path[..|path| - 1]);
      PathIsInside(p, fed, path[..|path| - 1]);
    }
  }

  predicate Subset<T(==)>(a: seq<T>, b: seq<T>) { forall x :: x in a ==> x in b }

  // More devices, combs or wires never take a feed away. Read both ways: the order of the lists,
  // and repetitions in them, do not matter.
  lemma {:induction false} FedIsMonotone(p: Panel, q: Panel, u: string)
    requires Subset(p.devices, q.devices) && Subset(p.combs, q.combs) && Subset(p.wires, q.wires)
    requires Fed(p, u)
    ensures Fed(q, u)
  {
    hide Path;
    FedIsLeast(q);
    var fed := iset v | Fed(q, v);
    forall v | Seed(p, v)
      ensures v in fed
    {
      SeedIsMonotone(p, q, v);
    }
    forall v, w | v in fed && Link(p, v, w)
      ensures w in fed
    {
      assert Link(q, v, w);
    }
    FedIsInside(p, fed, u);
  }

  lemma {:induction false} SeedIsMonotone(p: Panel, q: Panel, v: string)
    requires Subset(p.devices, q.devices) && Subset(p.wires, q.wires) && Seed(p, v)
    ensures Seed(q, v)
  {
    var i :| 0 <= i < |p.wires| && LiveWire(p.wires[i], v);
    assert p.wires[i] in q.wires;
    var j :| 0 <= j < |q.wires| && q.wires[j] == p.wires[i];
  }

  lemma {:induction false} FedIgnoresOrder(p: Panel, q: Panel, u: string)
    requires forall d :: d in p.devices <==> d in q.devices
    requires forall c :: c in p.combs <==> c in q.combs
    requires forall w :: w in p.wires <==> w in q.wires
    ensures Fed(p, u) <==> Fed(q, u)
  {
    hide Fed;
    if Fed(p, u) {
      FedIsMonotone(p, q, u);
    }
    if Fed(q, u) {
      FedIsMonotone(q, p, u);
    }
  }

  // ---------- circuit and breaker states ----------

  datatype Circuit = Circuit(id: string, breakerUid: Option<string>, withNeutral: bool, hasPE: bool)

  datatype CircuitState = CircuitState(hasBreaker: bool, hasL: bool, hasN: bool, hasPE: bool, isComplete: bool)

  datatype BreakerState = BreakerState(isMain: bool, isFed: bool, hasCircuit: bool)

  // Objects built from entries: a later entry replaces an earlier one of the same key.
  function DevicesByUid(devices: seq<Device>): map<string, Device> {
    if |devices| == 0 then map[]
    else var d := devices[|devices| - 1]; DevicesByUid(devices[..|devices| - 1])[d.uid := d]
  }

  function BreakerCircuits(circuits: seq<Circuit>): map<string, Circuit> {
    if |circuits| == 0 then map[]
    else
      var c, before := circuits[|circuits| - 1], BreakerCircuits(circuits[..|circuits| - 1]);
      if Truthy(c.breakerUid) then before[c.breakerUid.value := c] else before
  }

  predicate HasBreaker(c: Circuit, byUid: map<string, Device>) { Truthy(c.breakerUid) && c.breakerUid.value in byUid }

  function StateOf(c: Circuit, byUid: map<string, Device>, fed: seq<string>): CircuitState {
    var hasBreaker := HasBreaker(c, byUid);
    var hasL := hasBreaker && byUid[c.breakerUid.value].uid in fed;
    var hasN := c.withNeutral;
    CircuitState(hasBreaker, hasL, hasN, c.hasPE,
                 if c.withNeutral then hasL && hasN && c.hasPE else hasL && c.hasPE)
  }

  function CircuitStates(circuits: seq<Circuit>, byUid: map<string, Device>, fed: seq<string>)
    : map<string, CircuitState>
  {
    if |circuits| == 0 then map[]
    else
      var c := circuits[|circuits| - 1];
      CircuitStates(circuits[..|circuits| - 1], byUid, fed)[c.id := StateOf(c, byUid, fed)]
  }

  function BreakerStates(devices: seq<Device>, fed: seq<string>, byBreaker: map<string, Circuit>)
    : map<string, BreakerState>
  {
    if |devices| == 0 then map[]
    else
      var d := devices[|devices| - 1];
      BreakerStates(devices[..|devices| - 1], fed, byBreaker)[
        d.uid := BreakerState(d.isMain, d.uid in fed, d.uid in byBreaker)]
  }

  // ---------- the analysis ----------

  datatype Diagnostic =
    | Earlier(message: string)
    | MultipleMains(count: nat)
    | CircuitUnassigned(circuit: string)
    | CircuitMissingBreaker(circuit: string, breaker: string)
    | CircuitUnfed(circuit: string, breaker: string)
    | CircuitWithoutPE(circuit: string, breaker: string)
    | CircuitIncomplete(circuit: string, breaker: string)
    | BreakerWithoutCircuit(device: string)
    | BreakerUnfed(device: string)

  datatype Derived = Derived(devicesByUid: map<string, Device>, circuitStates: map<string, CircuitState>,
                             breakerStates: map<string, BreakerState>)

  // Whether the diagnostic is raised, read off the derived tables.
  predicate RaisedForCircuit(x: Diagnostic, c: Circuit, t: Derived) {
    match x
    case CircuitUnassigned(id) => id == c.id && !Truthy(c.breakerUid)
    case CircuitMissingBreaker(id, b) =>
      id == c.id && Truthy(c.breakerUid) && b == c.breakerUid.value && b !in t.devicesByUid
    case CircuitUnfed(id, b) => Assigned(id, b, c, t) && c.id in t.circuitStates && !t.circuitStates[c.id].hasL
    case CircuitWithoutPE(id, b) => Assigned(id, b, c, t) && c.id in t.circuitStates && !t.circuitStates[c.id].hasPE
    case CircuitIncomplete(id, b) =>
      Assigned(id, b, c, t) && c.id in t.circuitStates && !t.circuitStates[c.id].isComplete
    case _ => false
  }

  predicate Assigned(id: string, b: string, c: Circuit, t: Derived) {
    id == c.id && HasBreaker(c, t.devicesByUid) && b == c.breakerUid.value
  }

  predicate RaisedForDevice(x: Diagnostic, d: Device, t: Derived) {
    && d.uid in t.breakerStates && !d.isMain
    && match x
       case BreakerWithoutCircuit(uid) => uid == d.uid && !t.breakerStates[uid].hasCircuit
       case BreakerUnfed(uid) => uid == d.uid && !t.breakerStates[uid].isFed
       case _ => false
  }

  function Mains(devices: seq<Device>): nat {
    if |devices| == 0 then 0
    else Mains(devices[..|devices| - 1]) + if devices[|devices| - 1].isMain then 1 else 0
  }

  ghost predicate Raised(x: Diagnostic, prior: seq<Diagnostic>, devices: seq<Device>, circuits: seq<Circuit>,
      t: Derived) {
    || x in prior
    || (x == MultipleMains(Mains(devices)) && Mains(devices) > 1)
    || (exists c :: c in circuits && RaisedForCircuit(x, c, t))
    || (exists d :: d in devices && RaisedForDevice(x, d, t))
  }

  method CircuitDiagnostics(c: Circuit, t: Derived) returns (out: seq<Diagnostic>)
    requires c.id in t.circuitStates
    ensures forall x :: x in out <==> RaisedForCircuit(x, c, t)
  {
    out := [];
    if !Truthy(c.breakerUid) {
      return [CircuitUnassigned(c.id)];
    }
    var breakerUid := c.breakerUid.value;
    if breakerUid !in t.devicesByUid {
      return [CircuitMissingBreaker(c.id, breakerUid)];
    }
    var state := t.circuitStates[c.id];
    if !state.hasL {
      out := out + [CircuitUnfed(c.id, breakerUid)];
    }
    if !state.hasPE {
      out := out + [CircuitWithoutPE(c.id, breakerUid)];
    }
    if !state.isComplete {
      out := out + [CircuitIncomplete(c.id, breakerUid)];
    }
  }

  method DeviceDiagnostics(d: Device, t: Derived) returns (out: seq<Diagnostic>)
    ensures forall x :: x in out <==> RaisedForDevice(x, d, t)
  {
    out := [];
    if d.uid !in t.breakerStates {
      return;
    }
    var state := t.breakerStates[d.uid];
    if !d.isMain && !state.hasCircuit {
      out := out + [BreakerWithoutCircuit(d.uid)];
    }
    if !d.isMain && !state.isFed {
      out := out + [BreakerUnfed(d.uid)];
    }
  }

  method AnalyzeCompiledPanel(prior: seq<Diagnostic>, devices: seq<Device>, circuits: seq<Circuit>, t: Derived)
    returns (diagnostics: seq<Diagnostic>)
    requires forall c :: c in circuits ==> c.id in t.circuitStates
    ensures forall x :: x in diagnostics <==> Raised(x, prior, devices, circuits, t)
  {
    hide RaisedForCircuit, RaisedForDevice;
    diagnostics := prior;
    var mains := 0;
    for i := 0 to |devices|
      invariant mains == Mains(devices[..i])
    {
      assert devices[..i + 1][..i] == devices[..i];
      if devices[i].isMain {
        mains := mains + 1;
      }
    }
    assert devices[..|devices|] == devices;
    if mains > 1 {
      diagnostics := diagnostics + [MultipleMains(mains)];
    }
    ghost var start := diagnostics;
    for i := 0 to |circuits|
      invariant forall x :: x in diagnostics <==>
        x in start || exists k :: 0 <= k < i && RaisedForCircuit(x, circuits[k], t)
    {
      var more := CircuitDiagnostics(circuits[i], t);
      diagnostics := diagnostics + more;
    }
    ghost var middle := diagnostics;
    for i := 0 to |devices|
      invariant forall x :: x in diagnostics <==>
        x in middle || exists k :: 0 <= k < i && RaisedForDevice(x, devices[k], t)
    {
      var more := DeviceDiagnostics(devices[i], t);
      diagnostics := diagnostics + more;
    }
  }

  // ---------- which diagnostics are raised ----------

  ghost predicate HasDevice(p: Panel, uid: string) { exists d :: d in p.devices && d.uid == uid }

  lemma {:induction false} DeviceFound(devices: seq<Device>, uid: string)
    ensures uid in DevicesByUid(devices) <==> exists d :: d in devices && d.uid == uid
    ensures uid in DevicesByUid(devices) ==> DevicesByUid(devices)[uid].uid == uid
  {
    if |devices| > 0 {
      var front, last := devices[..|devices| - 1], devices[|devices| - 1];
      assert devices == front + [last];
      DeviceFound(front, uid);
    }
  }

  lemma {:induction false} BreakerCircuitFound(circuits: seq<Circuit>, uid: string)
    ensures uid in BreakerCircuits(circuits)
            <==> exists c :: c in circuits && Truthy(c.breakerUid) && c.breakerUid.value == uid
  {
    if |circuits| > 0 {
      var front, last := circuits[..|circuits| - 1], circuits[|circuits| - 1];
      assert circuits == front + [last];
      BreakerCircuitFound(front, uid);
    }
  }

  lemma {:induction false} BreakerStateFound(devices: seq<Device>, fed: seq<string>,
      byBreaker: map<string, Circuit>, uid: string)
    ensures var states := BreakerStates(devices, fed, byBreaker);
            && (uid in states <==> exists d :: d in devices && d.uid == uid)
            && (uid in states ==> states[uid].isFed == (uid in fed) && states[uid].hasCircuit == (uid in byBreaker))
  {
    if |devices| > 0 {
      var front, last := devices[..|devices| - 1], devices[|devices| - 1];
      assert devices == front + [last];
      BreakerStateFound(front, fed, byBreaker, uid);
    }
  }

  // The circuit that wins the shared id: the last one.
  function LastWith(circuits: seq<Circuit>, id: string): Option<Circuit> {
    if |circuits| == 0 then None
    else if circuits[|circuits| - 1].id == id then Some(circuits[|circuits| - 1])
    else LastWith(circuits[..|circuits| - 1], id)
  }

  lemma {:induction false} CircuitStateFound(circuits: seq<Circuit>, byUid: map<string, Device>, fed: seq<string>,
      id: string)
    ensures var states := CircuitStates(circuits, byUid, fed);
            && (id in states <==> exists c :: c in circuits && c.id == id)
            && (id in states <==> LastWith(circuits, id).Some?)
            && (id in states ==> states[id] == StateOf(LastWith(circuits, id).value, byUid, fed))
  {
    hide StateOf;
    if |circuits| > 0 {
      var front, last := circuits[..|circuits| - 1], circuits[|circuits| - 1];
      assert circuits == front + [last];
      CircuitStateFound(front, byUid, fed, id);
    }
  }

  predicate DistinctIds(circuits: seq<Circuit>) {
    forall i, j :: 0 <= i < j < |circuits| ==> circuits[i].id != circuits[j].id
  }

  lemma {:induction false} OnlyOne(circuits: seq<Circuit>, c: Circuit)
    requires DistinctIds(circuits) && c in circuits
    ensures LastWith(circuits, c.id) == Some(c)
  {
    var front, last := circuits[..|circuits| - 1], circuits[|circuits| - 1];
    var i :| 0 <= i < |circuits| && circuits[i] == c;
    if last.id != c.id {
      assert front[i] == c;
      OnlyOne(front, c);
    }
  }

  function Tables(p: Panel, circuits: seq<Circuit>, fed: seq<string>): Derived {
    var byUid := DevicesByUid(p.devices);
    Derived(byUid, CircuitStates(circuits, byUid, fed), BreakerStates(p.devices, fed, BreakerCircuits(circuits)))
  }

  // The circuit's breaker is on the panel and has feed.
  ghost predicate Supplied(p: Panel, c: Circuit) {
    Truthy(c.breakerUid) && HasDevice(p, c.breakerUid.value) && Fed(p, c.breakerUid.value)
  }

  ghost predicate Placed(p: Panel, c: Circuit, id: string, b: string) {
    c.id == id && c.breakerUid == Some(b) && b != "" && HasDevice(p, b)
  }

  lemma {:induction false} SuppliedState(p: Panel, c: Circuit, fed: seq<string>)
    requires forall u :: u in fed <==> Fed(p, u)
    ensures StateOf(c, DevicesByUid(p.devices), fed).hasL <==> Supplied(p, c)
  {
    hide Fed, DevicesByUid;
    if Truthy(c.breakerUid) {
      DeviceFound(p.devices, c.breakerUid.value);
    }
  }

  ghost predicate LastSupplied(p: Panel, circuits: seq<Circuit>, id: string) {
    LastWith(circuits, id).Some? && Supplied(p, LastWith(circuits, id).value)
  }

  lemma {:induction false} UnfedForCircuit(p: Panel, circuits: seq<Circuit>, fed: seq<string>, c: Circuit,
      id: string, b: string)
    requires c in circuits && forall u :: u in fed <==> Fed(p, u)
    ensures RaisedForCircuit(CircuitUnfed(id, b), c, Tables(p, circuits, fed)) <==>
            Placed(p, c, id, b) && !LastSupplied(p, circuits, id)
  {
    hide Fed, DevicesByUid, CircuitStates, StateOf, LastWith, Supplied, BreakerStates, BreakerCircuits;
    CircuitStateFound(circuits, DevicesByUid(p.devices), fed, c.id);
    SuppliedState(p, LastWith(circuits, c.id).value, fed);
    DeviceFound(p.devices, b);
  }

  // An unfed circuit is reported exactly when its breaker exists and the circuit that has the last
  // word on the shared id is not supplied.
  lemma {:induction false} UnfedCircuits(p: Panel, circuits: seq<Circuit>, fed: seq<string>, id: string, b: string)
    requires forall u :: u in fed <==> Fed(p, u)
    ensures Raised(CircuitUnfed(id, b), [], p.devices, circuits, Tables(p, circuits, fed)) <==>
            exists c :: c in circuits && Placed(p, c, id, b) && !LastSupplied(p, circuits, id)
  {
    hide Tables, Fed, RaisedForCircuit, Placed, LastSupplied;
    forall c | c in circuits
      ensures RaisedForCircuit(CircuitUnfed(id, b), c, Tables(p, circuits, fed)) <==>
              Placed(p, c, id, b) && !LastSupplied(p, circuits, id)
    {
      UnfedForCircuit(p, circuits, fed, c, id, b);
    }
  }

  // With distinct circuit ids: exactly when the circuit's existing breaker is not fed.
  lemma {:induction false} UnfedDistinctCircuits(p: Panel, circuits: seq<Circuit>, fed: seq<string>, id: string,
      b: string)
    requires DistinctIds(circuits) && forall u :: u in fed <==> Fed(p, u)
    ensures Raised(CircuitUnfed(id, b), [], p.devices, circuits, Tables(p, circuits, fed)) <==>
            exists c :: c in circuits && Placed(p, c, id, b) && !Fed(p, b)
  {
    hide Raised, Tables, Fed, LastWith;
    UnfedCircuits(p, circuits, fed, id, b);
    forall c | c in circuits && Placed(p, c, id, b)
      ensures LastSupplied(p, circuits, id) <==> Fed(p, b)
    {
      OnlyOne(circuits, c);
    }
  }

  // A breaker is reported unfed exactly when it is not a main breaker and no feed reaches it.
  lemma {:induction false} UnfedBreakers(p: Panel, circuits: seq<Circuit>, fed: seq<string>, uid: string)
    requires forall u :: u in fed <==> Fed(p, u)
    ensures Raised(BreakerUnfed(uid), [], p.devices, circuits, Tables(p, circuits, fed)) <==>
            exists d :: d in p.devices && d.uid == uid && !d.isMain && !Fed(p, uid)
  {
    hide Fed, BreakerStates, BreakerCircuits, DevicesByUid, CircuitStates;
    BreakerStateFound(p.devices, fed, BreakerCircuits(circuits), uid);
  }

  // A breaker is reported without a circuit exactly when it is not a main breaker and no circuit names it.
  lemma {:induction false} LooseBreakers(p: Panel, circuits: seq<Circuit>, fed: seq<string>, uid: string)
    ensures Raised(BreakerWithoutCircuit(uid), [], p.devices, circuits, Tables(p, circuits, fed)) <==>
            && (exists d :: d in p.devices && d.uid == uid && !d.isMain)
            && forall c :: c in circuits ==> !(Truthy(c.breakerUid) && c.breakerUid.value == uid)
  {
    hide BreakerStates, BreakerCircuits, DevicesByUid, CircuitStates;
    BreakerStateFound(p.devices, fed, BreakerCircuits(circuits), uid);
    BreakerCircuitFound(circuits, uid);
  }

  // The last word on the id: the circuit lacks a protective conductor.
  ghost predicate LastWithoutPE(circuits: seq<Circuit>, id: string) {
    LastWith(circuits, id).Some? && !LastWith(circuits, id).value.hasPE
  }

  lemma {:induction false} WithoutPEForCircuit(p: Panel, circuits: seq<Circuit>, fed: seq<string>, c: Circuit,
      id: string, b: string)
    requires c in circuits && forall u :: u in fed <==> Fed(p, u)
    ensures RaisedForCircuit(CircuitWithoutPE(id, b), c, Tables(p, circuits, fed)) <==>
            Placed(p, c, id, b) && LastWithoutPE(circuits, id)
    ensures RaisedForCircuit(CircuitIncomplete(id, b), c, Tables(p, circuits, fed)) <==>
            Placed(p, c, id, b) && (LastWithoutPE(circuits, id) || !LastSupplied(p, circuits, id))
    ensures RaisedForCircuit(CircuitUnassigned(id), c, Tables(p, circuits, fed)) <==>
            c.id == id && (c.breakerUid == None || c.breakerUid == Some(""))
    ensures RaisedForCircuit(CircuitMissingBreaker(id, b), c, Tables(p, circuits, fed)) <==>
            c.id == id && c.breakerUid == Some(b) && b != "" && !HasDevice(p, b)
  {
    hide Fed, DevicesByUid, CircuitStates, LastWith, Supplied, BreakerStates, BreakerCircuits;
    CircuitStateFound(circuits, DevicesByUid(p.devices), fed, c.id);
    SuppliedState(p, LastWith(circuits, c.id).value, fed);
    DeviceFound(p.devices, b);
  }

  // The other reports on circuits: no breaker named, a breaker that is not on the panel, no protective
  // conductor, and anything missing at all. The neutral never decides.
  lemma {:induction false} CircuitReports(p: Panel, circuits: seq<Circuit>, fed: seq<string>, id: string, b: string)
    requires forall u :: u in fed <==> Fed(p, u)
    ensures Raised(CircuitUnassigned(id), [], p.devices, circuits, Tables(p, circuits, fed)) <==>
            exists c :: c in circuits && c.id == id && (c.breakerUid == None || c.breakerUid == Some(""))
    ensures Raised(CircuitMissingBreaker(id, b), [], p.devices, circuits, Tables(p, circuits, fed)) <==>
            exists c :: c in circuits && c.id == id && c.breakerUid == Some(b) && b != "" && !HasDevice(p, b)
    ensures Raised(CircuitWithoutPE(id, b), [], p.devices, circuits, Tables(p, circuits, fed)) <==>
            exists c :: c in circuits && Placed(p, c, id, b) && LastWithoutPE(circuits, id)
    ensures Raised(CircuitIncomplete(id, b), [], p.devices, circuits, Tables(p, circuits, fed)) <==>
            exists c :: c in circuits && Placed(p, c, id, b)
                        && (LastWithoutPE(circuits, id) || !LastSupplied(p, circuits, id))
  {
    hide Tables, Fed, RaisedForCircuit, Placed, LastSupplied, LastWithoutPE, HasDevice;
    forall c | c in circuits
      ensures RaisedForCircuit(CircuitWithoutPE(id, b), c, Tables(p, circuits, fed)) <==>
              Placed(p, c, id, b) && LastWithoutPE(circuits, id)
      ensures RaisedForCircuit(CircuitIncomplete(id, b), c, Tables(p, circuits, fed)) <==>
              Placed(p, c, id, b) && (LastWithoutPE(circuits, id) || !LastSupplied(p, circuits, id))
      ensures RaisedForCircuit(CircuitUnassigned(id), c, Tables(p, circuits, fed)) <==>
              c.id == id && (c.breakerUid == None || c.breakerUid == Some(""))
      ensures RaisedForCircuit(CircuitMissingBreaker(id, b), c, Tables(p, circuits, fed)) <==>
              c.id == id && c.breakerUid == Some(b) && b != "" && !HasDevice(p, b)
    {
      WithoutPEForCircuit(p, circuits, fed, c, id, b);
    }
  }

  function MainPlaces(devices: seq<Device>): set<int> { set i | 0 <= i < |devices| && devices[i].isMain }

  lemma {:induction false} MainsCounted(devices: seq<Device>)
    ensures Mains(devices) == |MainPlaces(devices)|
  {
    if |devices| > 0 {
      var n := |devices| - 1;
      MainsCounted(devices[..n]);
      assert MainPlaces(devices) == MainPlaces(devices[..n]) + if devices[n].isMain then {n} else {};
    }
  }

  // What compilation reported is kept.
  lemma {:induction false} PriorKept(x: Diagnostic, prior: seq<Diagnostic>, devices: seq<Device>,
      circuits: seq<Circuit>, t: Derived)
    ensures Raised(x, prior, devices, circuits, t) <==> x in prior || Raised(x, [], devices, circuits, t)
  {
  }

  // Several main breakers are reported with their number.
  lemma {:induction false} MainReports(devices: seq<Device>, circuits: seq<Circuit>, t: Derived, n: nat)
    ensures Raised(MultipleMains(n), [], devices, circuits, t) <==> n == |MainPlaces(devices)| >= 2
  {
    MainsCounted(devices);
  }

  // Compiling and analysing a panel: the feed diagnostics follow reachability.
  method AnalyzePanel(p: Panel, circuits: seq<Circuit>) returns (diagnostics: seq<Diagnostic>)
    ensures DistinctIds(circuits) ==> forall id, b :: CircuitUnfed(id, b) in diagnostics <==>
      exists c :: c in circuits && Placed(p, c, id, b) && !Fed(p, b)
    ensures forall uid :: BreakerUnfed(uid) in diagnostics <==>
      exists d :: d in p.devices && d.uid == uid && !d.isMain && !Fed(p, uid)
  {
    hide Raised, Tables, Fed, Placed;
    var fed, _ := BuildFedDeviceUids(p);
    var t := Tables(p, circuits, fed);
    StatesForAll(p, circuits, fed);
    diagnostics := AnalyzeCompiledPanel([], p.devices, circuits, t);
    forall id, b | DistinctIds(circuits)
      ensures CircuitUnfed(id, b) in diagnostics <==> exists c :: c in circuits && Placed(p, c, id, b) && !Fed(p, b)
    {
      UnfedDistinctCircuits(p, circuits, fed, id, b);
    }
    forall uid
      ensures BreakerUnfed(uid) in diagnostics
              <==> exists d :: d in p.devices && d.uid == uid && !d.isMain && !Fed(p, uid)
    {
      UnfedBreakers(p, circuits, fed, uid);
    }
  }

  lemma {:induction false} StatesForAll(p: Panel, circuits: seq<Circuit>, fed: seq<string>)
    ensures forall c :: c in circuits ==> c.id in Tables(p, circuits, fed).circuitStates
  {
    hide DevicesByUid, CircuitStates, BreakerStates, BreakerCircuits;
    forall c | c in circuits
      ensures c.id in Tables(p, circuits, fed).circuitStates
    {
      CircuitStateFound(circuits, DevicesByUid(p.devices), fed, c.id);
    }
  }
}
