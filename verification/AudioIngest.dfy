/**
 The audio ingestion store and its resumable upload. Every request runs under one lock, so a
 request is one step from a state (clip files, index rows, part files) to the next. Hashing, WAV
 and metadata validation and the folder a clip goes to are parameters.
 */
module AudioIngest {
  import opened Wrappers

  type Byte = b: int | 0 <= b < 256

  type Bytes = seq<Byte>

  datatype Metadata = Metadata(clipId: string, sessionId: string, deviceId: string, category: string, startedAt: string)

  // The last component of a clip's path is its id; the folders before it come from the metadata.
  datatype Path = Path(folder: string, clipId: string)

  datatype Label = Unlabeled | Uncertain | ConfirmedPositive | ConfirmedNegative

  datatype Row = Row(metadata: Metadata, sha256: string, bytes: nat, path: Path, review: Label)

  // Hashing, admission (identifiers, WAV format, declared duration) and folder choice.
  datatype Rules = Rules(sha: Bytes -> string, admits: (Metadata, Bytes) -> bool, folder: Metadata -> string)

  datatype Limits = Limits(quotaBytes: int, minFreeBytes: int)

  datatype State = State(files: map<Path, Bytes>, index: seq<Row>, parts: map<string, Bytes>)

  // What a request reads from the machine: the size of all other files under the root (index,
  // session manifests), and the free disk space before and after the chunk is appended.
  datatype Machine = Machine(otherBytes: nat, diskFree: int, diskFreeAfter: int)

  datatype Outcome =
    | Refused
    | QuotaExceeded
    | Known(clipId: string, path: Path)
    | Stored(path: Path)

  datatype Chunk = Chunk(clipId: string, start: nat, end: nat, total: nat, contentLength: int,
                         metadata: Metadata, sha256: string, body: Bytes)

  datatype Answer =
    | BadRequest
    | Continue(nextOffset: nat)
    | Conflict(nextOffset: nat)
    | NoRoom
    | Accepted(clipId: string, path: Path, duplicate: bool)

  const MIN_CLIP_BYTES: int := 44
  const MAX_CLIP_BYTES: int := 64 * 1024 * 1024

  // ---------- sizes ----------

  ghost function Pick<K>(m: map<K, Bytes>): (k: K)
    requires |m| > 0
    ensures k in m
  {
    var k :| k in m;
    k
  }

  ghost function Size<K>(m: map<K, Bytes>): nat
    decreases |m|
  {
    if |m| == 0 then 0 else |m[Pick(m)]| + Size(m - {Pick(m)})
  }

  lemma {:induction false} SizeWithout<K>(m: map<K, Bytes>, k: K)
    requires k in m
    ensures Size(m) == |m[k]| + Size(m - {k})
    decreases |m|
  {
    var j := Pick(m);
    if j != k {
      SizeWithout(m - {j}, k);
      SizeWithout(m - {k}, j);
      assert m - {j} - {k} == m - {k} - {j};
    }
  }

  lemma {:induction false} SizeWith<K>(m: map<K, Bytes>, k: K, v: Bytes)
    ensures Size(m[k := v]) == |v| + Size(m - {k})
    ensures k !in m ==> m - {k} == m
  {
    hide Size;
    SizeWithout(m[k := v], k);
    MapWithout(m, k, v);
  }

  lemma {:induction false} MapWithout<K, V>(m: map<K, V>, k: K, v: V)
    ensures m[k := v] - {k} == m - {k}
    ensures k !in m ==> m - {k} == m
  {
  }

  // ---------- one step of each request ----------

  function FindClip(rows: seq<Row>, clipId: string): (i: nat)
    ensures i <= |rows|
    ensures i < |rows| ==> rows[i].metadata.clipId == clipId
    ensures forall j :: 0 <= j < i ==> rows[j].metadata.clipId != clipId
  {
    if |rows| == 0 || rows[0].metadata.clipId == clipId then 0 else 1 + FindClip(rows[1..], clipId)
  }

  function FindHash(rows: seq<Row>, sha256: string): (i: nat)
    ensures i <= |rows|
    ensures i < |rows| ==> rows[i].sha256 == sha256
    ensures forall j :: 0 <= j < i ==> rows[j].sha256 != sha256
  {
    if |rows| == 0 || rows[0].sha256 == sha256 then 0 else 1 + FindHash(rows[1..], sha256)
  }

  ghost function Used(s: State, m: Machine): nat { m.otherBytes + Size(s.files) + Size(s.parts) }

  function NewRow(rules: Rules, metadata: Metadata, body: Bytes): Row {
    Row(metadata, rules.sha(body), |body|, Path(rules.folder(metadata), metadata.clipId), Unlabeled)
  }

  ghost function ReceiveStep(rules: Rules, limits: Limits, s: State, metadata: Metadata, body: Bytes, sha256: string,
                             reserved: nat, m: Machine, diskFree: int): (State, Outcome)
  {
    var i, h := FindClip(s.index, metadata.clipId), FindHash(s.index, rules.sha(body));
    if !rules.admits(metadata, body) || rules.sha(body) != sha256 then (s, Refused)
    else if i < |s.index| then
      if s.index[i].sha256 != rules.sha(body) || s.index[i].bytes != |body| then (s, Refused)
      else (s, Known(metadata.clipId, s.index[i].path))
    else if h < |s.index| then (s, Known(s.index[h].metadata.clipId, s.index[h].path))
    else if Used(s, m) - reserved + |body| > limits.quotaBytes || diskFree - |body| < limits.minFreeBytes
      then (s, QuotaExceeded)
    else
      var row := NewRow(rules, metadata, body);
      (s.(files := s.files[row.path := body], index := s.index + [row]), Stored(row.path))
  }

  predicate WellFormed(c: Chunk) {
    && MIN_CLIP_BYTES <= c.total <= MAX_CLIP_BYTES
    && c.start <= c.end && c.end - c.start + 1 == c.contentLength
    && c.metadata.clipId == c.clipId
    && |c.body| == c.contentLength
  }

  function PartOf(s: State, clipId: string): Bytes {
    if clipId in s.parts then s.parts[clipId] else []
  }

  function Reply(o: Outcome, clipId: string): Answer {
    match o
    case Refused => BadRequest
    case QuotaExceeded => NoRoom
    case Known(id, path) => Accepted(id, path, true)
    case Stored(path) => Accepted(clipId, path, false)
  }

  ghost function PutStep(rules: Rules, limits: Limits, s: State, c: Chunk, m: Machine): (State, Answer) {
    var part := PartOf(s, c.clipId);
    if !WellFormed(c) then (s, BadRequest)
    else if c.start < |part| && c.end < |part| then (s, Continue(|part|))
    else if c.start != |part| then (s, Conflict(|part|))
    else if Used(s, m) + c.contentLength > limits.quotaBytes || m.diskFree - c.contentLength < limits.minFreeBytes
      then (s, NoRoom)
    else
      var s1 := s.(parts := s.parts[c.clipId := part + c.body]);
      var next := |part| + |c.body|;
      if next < c.total then (s1, Continue(next))
      else if next != c.total then (s1, BadRequest)
      else
        var (s2, o) := ReceiveStep(rules, limits, s1, c.metadata, part + c.body, c.sha256, next, m, m.diskFreeAfter);
        (if o.Known? || o.Stored? then s2.(parts := s2.parts - {c.clipId}) else s2, Reply(o, c.clipId))
  }

  function Labelled(rows: seq<Row>, clipId: string, review: Label): seq<Row> {
    var i := FindClip(rows, clipId);
    if i < |rows| then rows[i := rows[i].(review := review)] else rows
  }

  function Without(rows: seq<Row>, clipId: string): seq<Row> {
    if |rows| == 0 then []
    else
      var front, last := Without(rows[..|rows| - 1], clipId), rows[|rows| - 1];
      if last.metadata.clipId != clipId then front + [last] else front
  }

  function DeleteStep(s: State, clipId: string): (State, bool) {
    var i := FindClip(s.index, clipId);
    if i == |s.index| then (s, false)
    else (s.(files := s.files - {s.index[i].path}, index := Without(s.index, clipId)), true)
  }

  // ---------- the store ----------

  class Store {
    const rules: Rules
    const limits: Limits
    var files: map<Path, Bytes>
    var index: seq<Row>
    var parts: map<string, Bytes>

    function Now(): State
      reads this
    {
      State(files, index, parts)
    }

    constructor (rules: Rules, limits: Limits)
      ensures this.rules == rules && this.limits == limits
      ensures Now() == Empty()
    {
      this.rules, this.limits := rules, limits;
      files, index, parts := map[], [], map[];
    }

    method UsedBytes(m: Machine) returns (n: nat)
      ensures n == Used(Now(), m)
    {
      var inFiles := SizeOf(files);
      var inParts := SizeOf(parts);
      n := m.otherBytes + inFiles + inParts;
    }

    method ExistingClip(clipId: string) returns (i: nat)
      ensures i == FindClip(index, clipId)
    {
      i := 0;
      while i < |index| && index[i].metadata.clipId != clipId
        invariant i <= |index|
        invariant FindClip(index, clipId) == i + FindClip(index[i..], clipId)
      {
        i := i + 1;
      }
    }

    method ExistingHash(sha256: string) returns (i: nat)
      ensures i == FindHash(index, sha256)
    {
      i := 0;
      while i < |index| && index[i].sha256 != sha256
        invariant i <= |index|
        invariant FindHash(index, sha256) == i + FindHash(index[i..], sha256)
      {
        i := i + 1;
      }
    }

    /** Stores a clip unless its id or its audio is already there. */
    method Receive(metadata: Metadata, body: Bytes, sha256: string, reserved: nat, m: Machine, diskFree: int)
      returns (o: Outcome)
      modifies this
      ensures (Now(), o) == ReceiveStep(rules, limits, old(Now()), metadata, body, sha256, reserved, m, diskFree)
    {
      var actual := rules.sha(body);
      if !rules.admits(metadata, body) || actual != sha256 {
        return Refused;
      }
      var i := ExistingClip(metadata.clipId);
      if i < |index| {
        if index[i].sha256 != actual || index[i].bytes != |body| {
          return Refused;
        }
        return Known(metadata.clipId, index[i].path);
      }
      var h := ExistingHash(actual);
      if h < |index| {
        return Known(index[h].metadata.clipId, index[h].path);
      }
      var used := UsedBytes(m);
      if used - reserved + |body| > limits.quotaBytes || diskFree - |body| < limits.minFreeBytes {
        return QuotaExceeded;
      }
      var row := NewRow(rules, metadata, body);
      files := files[row.path := body];
      index := index + [row];
      o := Stored(row.path);
    }

    method SetLabel(clipId: string, review: Label) returns (found: bool)
      modifies this`index
      ensures found == (FindClip(old(index), clipId) < |old(index)|)
      ensures Now() == old(Now()).(index := Labelled(old(index), clipId, review))
    {
      var i := ExistingClip(clipId);
      found := i < |index|;
      if found {
        index := index[i := index[i].(review := review)];
      }
    }

    method Delete(clipId: string) returns (deleted: bool)
      modifies this
      ensures (Now(), deleted) == DeleteStep(old(Now()), clipId)
    {
      var i := ExistingClip(clipId);
      if i == |index| {
        return false;
      }
      files := files - {index[i].path};
      var kept := [];
      for n := 0 to |index|
        invariant index == old(index)
        invariant kept == Without(index[..n], clipId)
      {
        assert index[..n + 1][..n] == index[..n];
        if index[n].metadata.clipId != clipId {
          kept := kept + [index[n]];
        }
      }
      assert index[..|index|] == index;
      index := kept;
      deleted := true;
    }

    /** One chunk of a resumable upload. */
    method Put(c: Chunk, m: Machine) returns (a: Answer)
      modifies this
      ensures (Now(), a) == PutStep(rules, limits, old(Now()), c, m)
    {
      if !WellFormed(c) {
        return BadRequest;
      }
      var current := |PartOf(Now(), c.clipId)|;
      if c.start < current && c.end < current {
        return Continue(current);
      }
      if c.start != current {
        return Conflict(current);
      }
      var used := UsedBytes(m);
      if used + c.contentLength > limits.quotaBytes || m.diskFree - c.contentLength < limits.minFreeBytes {
        return NoRoom;
      }
      parts := parts[c.clipId := PartOf(Now(), c.clipId) + c.body];
      var next := |parts[c.clipId]|;
      if next < c.total {
        return Continue(next);
      }
      if next != c.total {
        return BadRequest;
      }
      var o := Receive(c.metadata, parts[c.clipId], c.sha256, next, m, m.diskFreeAfter);
      if o.Known? || o.Stored? {
        parts := parts - {c.clipId};
      }
      a := Reply(o, c.clipId);
    }
  }

  function Empty(): State { State(map[], [], map[]) }

  // The sum of the sizes of the files of a directory.
  method SizeOf<K>(m: map<K, Bytes>) returns (n: nat)
    ensures n == Size(m)
  {
    n := 0;
    var left := m;
    while |left| > 0
      invariant Size(m) == n + Size(left)
      decreases |left|
    {
      var k :| k in left;
      SizeWithout(left, k);
      n := n + |left[k]|;
      left := left - {k};
    }
  }

  // ---------- what every state keeps ----------

  ghost predicate DistinctClips(rows: seq<Row>) {
    forall i, j :: 0 <= i < j < |rows| ==> rows[i].metadata.clipId != rows[j].metadata.clipId
  }

  ghost predicate DistinctHashes(rows: seq<Row>) {
    forall i, j :: 0 <= i < j < |rows| ==> rows[i].sha256 != rows[j].sha256
  }

  // The row's file is there, with the recorded length and hash, under the row's own id.
  ghost predicate Backed(rules: Rules, files: map<Path, Bytes>, row: Row) {
    && row.path in files
    && row.path.clipId == row.metadata.clipId
    && |files[row.path]| == row.bytes
    && rules.sha(files[row.path]) == row.sha256
  }

  // Distinct ids, distinct hashes, each row has its file, each file its row.
  ghost predicate Indexed(rules: Rules, s: State) {
    && DistinctClips(s.index)
    && DistinctHashes(s.index)
    && (forall i :: 0 <= i < |s.index| ==> Backed(rules, s.files, s.index[i]))
    && (forall p :: p in s.files ==> exists i :: 0 <= i < |s.index| && s.index[i].path == p)
  }

  ghost predicate Valid(rules: Rules, limits: Limits, s: State) {
    Indexed(rules, s) && Size(s.files) + Size(s.parts) <= limits.quotaBytes
  }

  // No stored clip is touched: its row and its bytes are the same afterwards.
  ghost predicate KeepsStored(s: State, t: State) {
    && s.index <= t.index
    && (forall i :: 0 <= i < |s.index| ==>
         s.index[i].path in s.files ==>
           s.index[i].path in t.files && t.files[s.index[i].path] == s.files[s.index[i].path])
  }

  lemma {:induction false} FileHasRow(rules: Rules, s: State, p: Path)
    requires Indexed(rules, s) && p in s.files
    ensures FindClip(s.index, p.clipId) < |s.index|
  {
    var i :| 0 <= i < |s.index| && s.index[i].path == p;
    assert Backed(rules, s.files, s.index[i]);
  }

  // A new clip under a new id and a new hash.
  ghost predicate IsNew(rules: Rules, s: State, row: Row, body: Bytes) {
    && FindClip(s.index, row.metadata.clipId) == |s.index| && FindHash(s.index, row.sha256) == |s.index|
    && row.path.clipId == row.metadata.clipId && row.bytes == |body| && row.sha256 == rules.sha(body)
  }

  function StoreClip(s: State, row: Row, body: Bytes): State {
    s.(files := s.files[row.path := body], index := s.index + [row])
  }

  lemma {:induction false} StoreBacked(rules: Rules, s: State, row: Row, body: Bytes)
    requires Indexed(rules, s) && IsNew(rules, s, row, body)
    ensures row.path !in s.files
    ensures var t := StoreClip(s, row, body);
            && (forall i :: 0 <= i < |t.index| ==> Backed(rules, t.files, t.index[i]))
            && KeepsStored(s, t)
  {
    hide DistinctClips, DistinctHashes;
    var t := StoreClip(s, row, body);
    if row.path in s.files {
      FileHasRow(rules, s, row.path);
    }
    forall i | 0 <= i < |s.index|
      ensures s.index[i].path != row.path && Backed(rules, t.files, s.index[i])
    {
      assert Backed(rules, s.files, s.index[i]);
    }
  }

  lemma {:induction false} StoreListed(rules: Rules, s: State, row: Row, body: Bytes)
    requires Indexed(rules, s) && IsNew(rules, s, row, body)
    ensures var t := StoreClip(s, row, body);
            forall p :: p in t.files ==> exists i :: 0 <= i < |t.index| && t.index[i].path == p
  {
    hide DistinctClips, DistinctHashes, Backed;
    var t := StoreClip(s, row, body);
    assert t.index[|s.index|] == row;
    forall p | p in t.files
      ensures exists i :: 0 <= i < |t.index| && t.index[i].path == p
    {
      if p in s.files {
        var i :| 0 <= i < |s.index| && s.index[i].path == p;
        assert t.index[i].path == p;
      }
    }
  }

  lemma {:induction false} StoreKeepsIndexed(rules: Rules, s: State, row: Row, body: Bytes)
    requires Indexed(rules, s) && IsNew(rules, s, row, body)
    ensures Indexed(rules, StoreClip(s, row, body)) && KeepsStored(s, StoreClip(s, row, body))
    ensures Size(StoreClip(s, row, body).files) == Size(s.files) + |body|
  {
    hide Backed, Size;
    StoreBacked(rules, s, row, body);
    StoreListed(rules, s, row, body);
    SizeWith(s.files, row.path, body);
  }

  // What receiving does to the state: nothing, or one new clip within the quota.
  lemma {:induction false} ReceiveCases(rules: Rules, limits: Limits, s: State, metadata: Metadata, body: Bytes,
                                        sha256: string, reserved: nat, m: Machine, diskFree: int)
    ensures var (t, o) := ReceiveStep(rules, limits, s, metadata, body, sha256, reserved, m, diskFree);
            var row := NewRow(rules, metadata, body);
            && (!o.Stored? ==> t == s)
            && (o.Stored? ==>
                 && IsNew(rules, s, row, body) && t == StoreClip(s, row, body) && o.path == row.path
                 && Size(s.files) + Size(s.parts) - reserved + |body| <= limits.quotaBytes)
  {
    hide Size;
  }

  lemma {:induction false} ReceiveKeepsIndexed(rules: Rules, limits: Limits, s: State, metadata: Metadata,
      body: Bytes, sha256: string, reserved: nat, m: Machine, diskFree: int)
    requires Indexed(rules, s)
    ensures var (t, o) := ReceiveStep(rules, limits, s, metadata, body, sha256, reserved, m, diskFree);
            && Indexed(rules, t) && KeepsStored(s, t) && t.parts == s.parts
            && (o.Stored? ==>
                 && Size(t.files) == Size(s.files) + |body|
                 && Size(s.files) + Size(s.parts) - reserved + |body| <= limits.quotaBytes)
            && (!o.Stored? ==> t == s)
  {
    hide ReceiveStep, Size, Indexed, IsNew;
    var (t, o) := ReceiveStep(rules, limits, s, metadata, body, sha256, reserved, m, diskFree);
    ReceiveCases(rules, limits, s, metadata, body, sha256, reserved, m, diskFree);
    if o.Stored? {
      StoreKeepsIndexed(rules, s, NewRow(rules, metadata, body), body);
    }
  }

  /** A clip posted whole keeps every invariant, within the quota. */
  lemma {:induction false} ReceiveKeepsValid(rules: Rules, limits: Limits, s: State, metadata: Metadata, body: Bytes,
                                             sha256: string, m: Machine, diskFree: int)
    requires Valid(rules, limits, s)
    ensures Valid(rules, limits, ReceiveStep(rules, limits, s, metadata, body, sha256, 0, m, diskFree).0)
    ensures KeepsStored(s, ReceiveStep(rules, limits, s, metadata, body, sha256, 0, m, diskFree).0)
  {
    hide ReceiveStep, Size, Indexed, KeepsStored;
    ReceiveKeepsIndexed(rules, limits, s, metadata, body, sha256, 0, m, diskFree);
  }

  // ---------- chunks ----------

  function Appended(s: State, c: Chunk): State {
    s.(parts := s.parts[c.clipId := PartOf(s, c.clipId) + c.body])
  }

  lemma {:induction false} AppendedSize(s: State, c: Chunk)
    ensures Size(Appended(s, c).parts) == Size(s.parts) + |c.body|
    ensures Size(Appended(s, c).parts - {c.clipId}) == Size(s.parts) - |PartOf(s, c.clipId)|
  {
    hide Size;
    SizeWith(s.parts, c.clipId, PartOf(s, c.clipId) + c.body);
    SizeWithout(Appended(s, c).parts, c.clipId);
    if c.clipId in s.parts {
      SizeWithout(s.parts, c.clipId);
    }
  }

  // The upload is complete: what the part file becomes.
  ghost function Finish(rules: Rules, limits: Limits, s: State, c: Chunk, m: Machine): (State, Outcome) {
    ReceiveStep(rules, limits, Appended(s, c), c.metadata, PartOf(s, c.clipId) + c.body, c.sha256,
                |PartOf(s, c.clipId)| + |c.body|, m, m.diskFreeAfter)
  }

  // The five things a chunk can do.
  lemma {:induction false} PutCases(rules: Rules, limits: Limits, s: State, c: Chunk, m: Machine)
    ensures var (t, a) := PutStep(rules, limits, s, c, m);
            var n := |PartOf(s, c.clipId)|;
            var (f, o) := Finish(rules, limits, s, c, m);
            || t == s
            || (n + |c.body| != c.total && t == Appended(s, c) && Used(s, m) + |c.body| <= limits.quotaBytes)
            || (n + |c.body| == c.total && Used(s, m) + |c.body| <= limits.quotaBytes && a == Reply(o, c.clipId)
                 && t == if o.Known? || o.Stored? then f.(parts := f.parts - {c.clipId}) else f)
  {
    hide ReceiveStep, Used;
  }

  lemma {:induction false} FinishKeepsValid(rules: Rules, limits: Limits, s: State, c: Chunk, m: Machine)
    requires Valid(rules, limits, s) && Used(s, m) + |c.body| <= limits.quotaBytes
    ensures var (f, o) := Finish(rules, limits, s, c, m);
            var t := if o.Known? || o.Stored? then f.(parts := f.parts - {c.clipId}) else f;
            Valid(rules, limits, t) && KeepsStored(s, t)
  {
    hide ReceiveStep, Size, DistinctClips, DistinctHashes, Backed, PartOf;
    AppendedSize(s, c);
    ReceiveKeepsIndexed(rules, limits, Appended(s, c), c.metadata, PartOf(s, c.clipId) + c.body, c.sha256,
                        |PartOf(s, c.clipId)| + |c.body|, m, m.diskFreeAfter);
  }

  /** A chunk, whatever it is, keeps every invariant, and alters no stored clip. */
  lemma {:induction false} PutKeepsValid(rules: Rules, limits: Limits, s: State, c: Chunk, m: Machine)
    requires Valid(rules, limits, s)
    ensures Valid(rules, limits, PutStep(rules, limits, s, c, m).0)
    ensures KeepsStored(s, PutStep(rules, limits, s, c, m).0)
  {
    hide PutStep, Finish, Size, DistinctClips, DistinctHashes, Backed, PartOf;
    PutCases(rules, limits, s, c, m);
    AppendedSize(s, c);
    if Used(s, m) + |c.body| <= limits.quotaBytes {
      FinishKeepsValid(rules, limits, s, c, m);
    }
  }

  // ---------- labels and deletion ----------

  // Two indexes of the same clips, hashes and files.
  lemma {:induction false} SameClips(rules: Rules, s: State, rows: seq<Row>)
    requires Indexed(rules, s) && |rows| == |s.index|
    requires forall j :: 0 <= j < |rows| ==> rows[j].(review := Unlabeled) == s.index[j].(review := Unlabeled)
    ensures Indexed(rules, s.(index := rows))
  {
    forall j | 0 <= j < |rows|
      ensures Backed(rules, s.files, rows[j]) && rows[j].metadata == s.index[j].metadata
              && rows[j].sha256 == s.index[j].sha256
    {
      SameRow(rules, s.files, s.index[j], rows[j]);
    }
    hide Backed;
    forall p | p in s.files
      ensures exists j :: 0 <= j < |rows| && rows[j].path == p
    {
      var j :| 0 <= j < |s.index| && s.index[j].path == p;
      SamePath(s.index[j], rows[j]);
    }
  }

  lemma {:induction false} SamePath(row: Row, row': Row)
    requires row.(review := Unlabeled) == row'.(review := Unlabeled)
    ensures row.path == row'.path
  {
  }

  lemma {:induction false} SameRow(rules: Rules, files: map<Path, Bytes>, row: Row, row': Row)
    requires row.(review := Unlabeled) == row'.(review := Unlabeled) && Backed(rules, files, row)
    ensures Backed(rules, files, row') && row'.metadata == row.metadata && row'.sha256 == row.sha256
  {
  }

  lemma {:induction false} LabelKeepsValid(rules: Rules, limits: Limits, s: State, clipId: string, review: Label)
    requires Valid(rules, limits, s)
    ensures Valid(rules, limits, s.(index := Labelled(s.index, clipId, review)))
  {
    hide Size, Indexed;
    SameClips(rules, s, Labelled(s.index, clipId, review));
  }

  function Dropped(rows: seq<Row>, i: nat): seq<Row>
    requires i < |rows|
  {
    rows[..i] + rows[i + 1..]
  }

  // With distinct ids, deletion drops one row.
  lemma {:induction false} WithoutOne(rows: seq<Row>, i: nat)
    requires DistinctClips(rows) && i < |rows|
    ensures Without(rows, rows[i].metadata.clipId) == Dropped(rows, i)
  {
    var n := |rows| - 1;
    if i == n {
      WithoutNone(rows[..n], rows[i].metadata.clipId);
    } else {
      WithoutOne(rows[..n], i);
      assert rows[..n][..i] + rows[..n][i + 1..] + [rows[n]] == rows[..i] + rows[i + 1..];
    }
  }

  lemma {:induction false} WithoutNone(rows: seq<Row>, clipId: string)
    requires forall i :: 0 <= i < |rows| ==> rows[i].metadata.clipId != clipId
    ensures Without(rows, clipId) == rows
  {
    if |rows| > 0 {
      WithoutNone(rows[..|rows| - 1], clipId);
    }
  }

  lemma {:induction false} DeleteKeepsIndexed(rules: Rules, s: State, clipId: string)
    requires Indexed(rules, s)
    ensures Indexed(rules, DeleteStep(s, clipId).0)
  {
    hide Without, Backed;
    var i := FindClip(s.index, clipId);
    if i < |s.index| {
      WithoutOne(s.index, i);
      DroppedRowDistinct(s.index, i);
      DroppedRowListed(rules, s, i);
      forall j | 0 <= j < |s.index| - 1
        ensures Backed(rules, s.files - {s.index[i].path}, Dropped(s.index, i)[j])
      {
        RowAfterDelete(rules, s, i, j);
      }
    }
  }

  lemma {:induction false} DroppedRowDistinct(rows: seq<Row>, i: nat)
    requires DistinctClips(rows) && DistinctHashes(rows) && i < |rows|
    ensures DistinctClips(Dropped(rows, i)) && DistinctHashes(Dropped(rows, i))
  {
  }

  lemma {:induction false} DroppedRowListed(rules: Rules, s: State, i: nat)
    requires Indexed(rules, s) && i < |s.index|
    ensures forall p :: p in s.files - {s.index[i].path} ==>
              exists j :: 0 <= j < |s.index| - 1 && Dropped(s.index, i)[j].path == p
  {
    hide Backed, DistinctClips, DistinctHashes;
    forall p | p in s.files - {s.index[i].path}
      ensures exists j :: 0 <= j < |s.index| - 1 && Dropped(s.index, i)[j].path == p
    {
      var k :| 0 <= k < |s.index| && s.index[k].path == p;
      assert Dropped(s.index, i)[if k < i then k else k - 1].path == p;
    }
  }

  lemma {:induction false} RowAfterDelete(rules: Rules, s: State, i: nat, j: nat)
    requires Indexed(rules, s) && i < |s.index| && j < |s.index| - 1
    ensures Backed(rules, s.files - {s.index[i].path}, Dropped(s.index, i)[j])
  {
    var k := if j < i then j else j + 1;
    assert Dropped(s.index, i)[j] == s.index[k];
    assert Backed(rules, s.files, s.index[k]) && Backed(rules, s.files, s.index[i]);
    assert s.index[k].metadata.clipId != s.index[i].metadata.clipId;
  }

  lemma {:induction false} DeleteKeepsValid(rules: Rules, limits: Limits, s: State, clipId: string)
    requires Valid(rules, limits, s)
    ensures Valid(rules, limits, DeleteStep(s, clipId).0)
  {
    hide Indexed, Without, Size;
    DeleteKeepsIndexed(rules, s, clipId);
    var i := FindClip(s.index, clipId);
    if i < |s.index| && s.index[i].path in s.files {
      SizeWithout(s.files, s.index[i].path);
    } else if i < |s.index| {
      assert s.files - {s.index[i].path} == s.files;
    }
  }

  // ---------- runs ----------

  datatype Request =
    | Post(metadata: Metadata, body: Bytes, sha256: string)
    | PutChunk(chunk: Chunk)
    | Review(clipId: string, review: Label)
    | Remove(clipId: string)

  ghost function Serve(rules: Rules, limits: Limits, s: State, r: Request, m: Machine): State {
    match r
    case Post(metadata, body, sha256) => ReceiveStep(rules, limits, s, metadata, body, sha256, 0, m, m.diskFree).0
    case PutChunk(c) => PutStep(rules, limits, s, c, m).0
    case Review(clipId, review) => s.(index := Labelled(s.index, clipId, review))
    case Remove(clipId) => DeleteStep(s, clipId).0
  }

  ghost function ServeAll(rules: Rules, limits: Limits, s: State, requests: seq<(Request, Machine)>): State {
    if |requests| == 0 then s
    else
      var (r, m) := requests[|requests| - 1];
      Serve(rules, limits, ServeAll(rules, limits, s, requests[..|requests| - 1]), r, m)
  }

  ghost function Run(rules: Rules, limits: Limits, requests: seq<(Request, Machine)>): State {
    ServeAll(rules, limits, Empty(), requests)
  }

  lemma {:induction false} ServeKeepsValid(rules: Rules, limits: Limits, s: State, r: Request, m: Machine)
    requires Valid(rules, limits, s)
    ensures Valid(rules, limits, Serve(rules, limits, s, r, m))
  {
    hide Valid, ReceiveStep, PutStep, DeleteStep, Labelled;
    match r
    case Post(metadata, body, sha256) => ReceiveKeepsValid(rules, limits, s, metadata, body, sha256, m, m.diskFree);
    case PutChunk(c) => PutKeepsValid(rules, limits, s, c, m);
    case Review(clipId, review) => LabelKeepsValid(rules, limits, s, clipId, review);
    case Remove(clipId) => DeleteKeepsValid(rules, limits, s, clipId);
  }

  /**
   Every state that any sequence of requests reaches from an empty store, whatever the machine
   reports, has distinct clip ids, distinct hashes, one file of the recorded length and hash for
   each row and no other, and holds no more than the quota in clips and unfinished parts together.
   */
  lemma {:induction false} EveryRunIsValid(rules: Rules, limits: Limits, requests: seq<(Request, Machine)>)
    requires limits.quotaBytes >= 0
    ensures Valid(rules, limits, Run(rules, limits, requests))
  {
    hide Serve;
    if |requests| > 0 {
      EveryRunIsValid(rules, limits, requests[..|requests| - 1]);
      var (r, m) := requests[|requests| - 1];
      ServeKeepsValid(rules, limits, Run(rules, limits, requests[..|requests| - 1]), r, m);
    }
  }

  // ---------- one payload, many chunk requests ----------

  // The chunk is cut from the payload.
  ghost predicate CutFrom(c: Chunk, payload: Bytes) {
    c.total == |payload| && c.start <= c.end < |payload| && c.body == payload[c.start..c.end + 1]
  }

  ghost predicate UploadsOnly(requests: seq<(Request, Machine)>, clipId: string, payload: Bytes) {
    forall i :: 0 <= i < |requests| && requests[i].0.PutChunk? && requests[i].0.chunk.clipId == clipId
      ==> CutFrom(requests[i].0.chunk, payload)
  }

  // There is room to append the chunk.
  ghost predicate Fits(limits: Limits, s: State, c: Chunk, m: Machine) {
    Used(s, m) + c.contentLength <= limits.quotaBytes && m.diskFree - c.contentLength >= limits.minFreeBytes
  }

  // The offset an answer reports is the length of the part that is then there; a conflict, a malformed
  // or an old chunk, and one that does not fit, leave everything as it was.
  lemma {:induction false} PutReportsTruth(rules: Rules, limits: Limits, s: State, c: Chunk, m: Machine)
    ensures var (t, a) := PutStep(rules, limits, s, c, m);
            && (a.Continue? || a.Conflict? ==> a.nextOffset == |PartOf(t, c.clipId)|)
            && (a.Conflict? || c.end < |PartOf(s, c.clipId)| || !WellFormed(c) || !Fits(limits, s, c, m) ==> t == s)
            && (WellFormed(c) && c.start == |PartOf(s, c.clipId)| && !Fits(limits, s, c, m) ==> a == NoRoom)
            && (forall id :: id != c.clipId ==> PartOf(t, id) == PartOf(s, id))
            && (a.Accepted? ==> c.clipId !in t.parts)
  {
    hide Size, Used;
  }

  // The part file stays a prefix of the payload.
  lemma {:induction false} PutKeepsPrefix(rules: Rules, limits: Limits, s: State, c: Chunk, m: Machine,
      payload: Bytes)
    requires CutFrom(c, payload) && PartOf(s, c.clipId) <= payload
    ensures PartOf(PutStep(rules, limits, s, c, m).0, c.clipId) <= payload
  {
    hide Size, Used;
    var part := PartOf(s, c.clipId);
    if c.start == |part| {
      assert part + c.body == payload[..c.end + 1];
    }
  }

  lemma {:induction false} ServeKeepsParts(rules: Rules, limits: Limits, s: State, r: Request, m: Machine,
      clipId: string)
    requires !(r.PutChunk? && r.chunk.clipId == clipId)
    ensures PartOf(Serve(rules, limits, s, r, m), clipId) == PartOf(s, clipId)
  {
    hide Size, Used;
    if r.PutChunk? {
      PutReportsTruth(rules, limits, s, r.chunk, m);
    }
  }

  /**
   Chunks of one payload may be requested in any order, repeated, dropped and mixed with any other
   requests: the part file is a prefix of the payload in every state of the run.
   */
  lemma {:induction false} PartIsAlwaysPrefix(rules: Rules, limits: Limits, requests: seq<(Request, Machine)>,
      clipId: string, payload: Bytes)
    requires UploadsOnly(requests, clipId, payload)
    ensures PartOf(Run(rules, limits, requests), clipId) <= payload
  {
    hide Serve;
    if |requests| > 0 {
      var front := requests[..|requests| - 1];
      var (r, m) := requests[|requests| - 1];
      PartIsAlwaysPrefix(rules, limits, front, clipId, payload);
      var s := Run(rules, limits, front);
      if r.PutChunk? && r.chunk.clipId == clipId {
        assert CutFrom(requests[|requests| - 1].0.chunk, payload);
        PutKeepsPrefix(rules, limits, s, r.chunk, m, payload);
        ServePut(rules, limits, s, r.chunk, m);
      } else {
        ServeKeepsParts(rules, limits, s, r, m, clipId);
      }
    }
  }

  lemma {:induction false} ServePut(rules: Rules, limits: Limits, s: State, c: Chunk, m: Machine)
    ensures Serve(rules, limits, s, PutChunk(c), m) == PutStep(rules, limits, s, c, m).0
  {
  }

  /** A completed upload stores exactly the payload, or finds its id or its hash already stored. */
  lemma {:induction false} CompletionStoresPayload(rules: Rules, limits: Limits, s: State, c: Chunk, m: Machine,
      payload: Bytes)
    requires Indexed(rules, s) && CutFrom(c, payload) && PartOf(s, c.clipId) <= payload
    requires PutStep(rules, limits, s, c, m).1.Accepted?
    ensures var (t, a) := PutStep(rules, limits, s, c, m);
            && c.sha256 == rules.sha(payload)
            && a.path in t.files
            && rules.sha(t.files[a.path]) == rules.sha(payload)
            && (!a.duplicate ==>
                 && a.path !in s.files && t.files[a.path] == payload
                 && t.index == s.index + [NewRow(rules, c.metadata, payload)])
            && (a.duplicate ==> t.files == s.files && t.index == s.index)
  {
    hide Size, Used, DistinctClips, DistinctHashes;
    var part := PartOf(s, c.clipId);
    assert part + c.body == payload;
    var (t, a) := PutStep(rules, limits, s, c, m);
    var i, h := FindClip(s.index, c.clipId), FindHash(s.index, rules.sha(payload));
    if i < |s.index| {
      assert Backed(rules, s.files, s.index[i]);
    } else if h < |s.index| {
      assert Backed(rules, s.files, s.index[h]);
    } else {
      var row := NewRow(rules, c.metadata, payload);
      if row.path in s.files {
        FileHasRow(rules, s, row.path);
      }
    }
  }

  /** Receiving the same clip again changes nothing, and says so. */
  lemma {:induction false} ReceiveTwice(rules: Rules, limits: Limits, s: State, metadata: Metadata, body: Bytes,
      sha256: string, reserved: nat, m: Machine, diskFree: int, reserved': nat, m': Machine, diskFree': int)
    ensures var (t, o) := ReceiveStep(rules, limits, s, metadata, body, sha256, reserved, m, diskFree);
            var again := ReceiveStep(rules, limits, t, metadata, body, sha256, reserved', m', diskFree');
            o.Stored? || o.Known? ==> again.0 == t && again.1.Known? && again.1.path == o.path
  {
    hide Size, Used;
    var (t, o) := ReceiveStep(rules, limits, s, metadata, body, sha256, reserved, m, diskFree);
    if o.Stored? {
      FindLast(s.index, NewRow(rules, metadata, body));
    }
  }

  lemma {:induction false} FindLast(rows: seq<Row>, row: Row)
    requires FindClip(rows, row.metadata.clipId) == |rows|
    ensures FindClip(rows + [row], row.metadata.clipId) == |rows|
  {
    assert forall j :: 0 <= j < |rows| ==> (rows + [row])[j] == rows[j];
    assert (rows + [row])[|rows|] == row;
  }

  // The chunk that starts at the reported offset is taken, when there is room for it.
  lemma {:induction false} PutAdvances(rules: Rules, limits: Limits, s: State, c: Chunk, m: Machine, payload: Bytes)
    requires CutFrom(c, payload) && WellFormed(c) && PartOf(s, c.clipId) <= payload && c.start == |PartOf(s, c.clipId)|
    requires Fits(limits, s, c, m)
    ensures var (t, a) := PutStep(rules, limits, s, c, m);
            && (c.end + 1 < |payload| ==> a == Continue(c.end + 1) && PartOf(t, c.clipId) == payload[..c.end + 1])
            && (c.end + 1 == |payload| ==> a == Reply(Finish(rules, limits, s, c, m).1, c.clipId))
  {
    hide Size, Used;
    var part := PartOf(s, c.clipId);
    assert part + c.body == payload[..c.end + 1];
    assert payload[..|payload|] == payload;
  }

  // ---------- completion ----------

  // What the store answers to the payload itself: it is admitted and intact, and either its id is
  // already stored with the same audio, or the audio is stored under another id, or there is disk
  // space for a second copy beside the part file.
  ghost predicate Receivable(rules: Rules, limits: Limits, s: State, c: Chunk, m: Machine, payload: Bytes) {
    var i, h := FindClip(s.index, c.clipId), FindHash(s.index, c.sha256);
    && rules.admits(c.metadata, payload) && rules.sha(payload) == c.sha256
    && (i < |s.index| ==> s.index[i].sha256 == c.sha256 && s.index[i].bytes == |payload|)
    && (i == |s.index| && h == |s.index| ==> m.diskFreeAfter - |payload| >= limits.minFreeBytes)
  }

  // The chunk completes the part to the payload.
  ghost predicate Completes(limits: Limits, s: State, c: Chunk, m: Machine, payload: Bytes) {
    && CutFrom(c, payload) && WellFormed(c) && PartOf(s, c.clipId) <= payload && c.start == |PartOf(s, c.clipId)|
    && c.end + 1 == |payload| && Fits(limits, s, c, m)
  }

  /**
   The chunk that completes a part is accepted exactly when the payload is receivable; otherwise the
   whole payload stays in the part file. The quota is never the cause: the chunk fitted, and the part
   is not counted twice.
   */
  lemma {:induction false} StuckWhenRefused(rules: Rules, limits: Limits, s: State, c: Chunk, m: Machine,
      payload: Bytes)
    requires Completes(limits, s, c, m, payload)
    ensures var (t, a) := PutStep(rules, limits, s, c, m);
            && (PartOf(t, c.clipId) == payload <==> !Receivable(rules, limits, s, c, m, payload))
            && (a.Accepted? <==> Receivable(rules, limits, s, c, m, payload))
  {
    hide Size;
    var part := PartOf(s, c.clipId);
    assert part + c.body == payload;
    AppendedSize(s, c);
  }

  // No chunk of the payload gets past a full part: each is answered with the full length.
  lemma {:induction false} FullPartIsStuck(rules: Rules, limits: Limits, s: State, c: Chunk, m: Machine,
      payload: Bytes)
    requires CutFrom(c, payload) && WellFormed(c) && PartOf(s, c.clipId) == payload
    ensures PutStep(rules, limits, s, c, m) == (s, Continue(|payload|))
  {
  }

  /**
   A full part stays full over any further requests, its own chunks and the deletion of any clip
   included, and none of its chunks is ever accepted.
   */
  lemma {:induction false} FullPartStays(rules: Rules, limits: Limits, s: State, requests: seq<(Request, Machine)>,
      clipId: string, payload: Bytes)
    requires PartOf(s, clipId) == payload && UploadsOnly(requests, clipId, payload)
    ensures var t := ServeAll(rules, limits, s, requests);
            && PartOf(t, clipId) == payload
            && forall c: Chunk, m: Machine ::
                 c.clipId == clipId && CutFrom(c, payload) ==> !PutStep(rules, limits, t, c, m).1.Accepted?
  {
    hide Serve, PutStep, CutFrom;
    if |requests| > 0 {
      var front := requests[..|requests| - 1];
      var (r, m) := requests[|requests| - 1];
      FullPartStays(rules, limits, s, front, clipId, payload);
      FullServe(rules, limits, ServeAll(rules, limits, s, front), requests[|requests| - 1].0, m, clipId, payload);
    }
    var t := ServeAll(rules, limits, s, requests);
    forall c: Chunk, m: Machine | c.clipId == clipId && CutFrom(c, payload)
      ensures !PutStep(rules, limits, t, c, m).1.Accepted?
    {
      FullPartAnswers(rules, limits, t, c, m, payload);
    }
  }

  lemma {:induction false} FullServe(rules: Rules, limits: Limits, s: State, r: Request, m: Machine, clipId: string,
      payload: Bytes)
    requires PartOf(s, clipId) == payload
    requires r.PutChunk? && r.chunk.clipId == clipId ==> CutFrom(r.chunk, payload)
    ensures PartOf(Serve(rules, limits, s, r, m), clipId) == payload
  {
    hide Serve, PutStep;
    if r.PutChunk? && r.chunk.clipId == clipId {
      FullPartAnswers(rules, limits, s, r.chunk, m, payload);
      ServePut(rules, limits, s, r.chunk, m);
    } else {
      ServeKeepsParts(rules, limits, s, r, m, clipId);
    }
  }

  lemma {:induction false} FullPartAnswers(rules: Rules, limits: Limits, s: State, c: Chunk, m: Machine,
      payload: Bytes)
    requires PartOf(s, c.clipId) == payload && CutFrom(c, payload)
    ensures PutStep(rules, limits, s, c, m).0 == s && !PutStep(rules, limits, s, c, m).1.Accepted?
  {
    if WellFormed(c) {
      FullPartIsStuck(rules, limits, s, c, m, payload);
    }
  }

  const SMALL_DISK := Machine(0, 100, 56)

  // A clip of 44 bytes sent whole as one chunk.
  function WholeClip(metadata: Metadata, payload: Bytes, sha256: string): Chunk
    requires |payload| == 44
  {
    Chunk(metadata.clipId, 0, 43, 44, 44, metadata, sha256, payload)
  }

  // From an empty store: the disk has room for the part but not for a second copy of the clip.
  lemma {:induction false} StuckRun(rules: Rules, metadata: Metadata, payload: Bytes)
    requires |payload| == 44 && rules.admits(metadata, payload)
    ensures var c := WholeClip(metadata, payload, rules.sha(payload));
            var limits := Limits(1000, 20);
            PartOf(Run(rules, limits, [(PutChunk(c), SMALL_DISK)]), metadata.clipId) == payload
  {
    hide Size;
    var c, limits := WholeClip(metadata, payload, rules.sha(payload)), Limits(1000, 20);
    RunOne(rules, limits, c, SMALL_DISK);
    assert payload[0..44] == payload;
    NothingUsed();
    StuckWhenRefused(rules, limits, Empty(), c, SMALL_DISK, payload);
  }

  lemma {:induction false} RunOne(rules: Rules, limits: Limits, c: Chunk, m: Machine)
    ensures Run(rules, limits, [(PutChunk(c), m)]) == PutStep(rules, limits, Empty(), c, m).0
  {
    hide PutStep, Serve;
    var requests := [(PutChunk(c), m)];
    assert requests[..0] == [];
    assert ServeAll(rules, limits, Empty(), requests[..0]) == Empty();
    ServePut(rules, limits, Empty(), c, m);
  }

  lemma {:induction false} NothingUsed()
    ensures Used(Empty(), SMALL_DISK) == 0
  {
  }

  // Chunks delivered one after another.
  function Puts(deliveries: seq<(Chunk, Machine)>): seq<(Request, Machine)> {
    if |deliveries| == 0 then []
    else
      var (c, m) := deliveries[|deliveries| - 1];
      Puts(deliveries[..|deliveries| - 1]) + [(PutChunk(c), m)]
  }

  // The chunks continue the part of state s in order up to the offset, with room for each of them,
  // counted from state s.
  ghost predicate Delivers(limits: Limits, s: State, deliveries: seq<(Chunk, Machine)>, clipId: string,
      payload: Bytes, offset: nat)
  {
    if |deliveries| == 0 then offset == |PartOf(s, clipId)|
    else
      var (c, m) := deliveries[|deliveries| - 1];
      && c.clipId == clipId && CutFrom(c, payload) && WellFormed(c) && c.end + 1 == offset
      && Used(s, m) + offset - |PartOf(s, clipId)| <= limits.quotaBytes
      && m.diskFree - c.contentLength >= limits.minFreeBytes
      && Delivers(limits, s, deliveries[..|deliveries| - 1], clipId, payload, c.start)
  }

  // Only the part has changed, and it has grown to the offset.
  ghost predicate Delivered(s: State, t: State, clipId: string, payload: Bytes, offset: nat) {
    && offset <= |payload| && PartOf(t, clipId) == payload[..offset]
    && t.files == s.files && t.index == s.index
    && Size(t.parts) == Size(s.parts) + offset - |PartOf(s, clipId)|
  }

  lemma {:induction false} ChunkDelivered(rules: Rules, limits: Limits, s: State, t: State, c: Chunk, m: Machine,
      payload: Bytes)
    requires Delivered(s, t, c.clipId, payload, c.start) && CutFrom(c, payload) && WellFormed(c)
    requires Used(s, m) + (c.end + 1) - |PartOf(s, c.clipId)| <= limits.quotaBytes
    requires m.diskFree - c.contentLength >= limits.minFreeBytes
    ensures Fits(limits, t, c, m)
    ensures c.end + 1 < |payload| ==>
              Delivered(s, PutStep(rules, limits, t, c, m).0, c.clipId, payload, c.end + 1)
  {
    hide Size;
    AppendedSize(t, c);
    assert payload[..c.start] + c.body == payload[..c.end + 1];
  }

  lemma {:induction false} DeliveredSoFar(rules: Rules, limits: Limits, s: State,
      deliveries: seq<(Chunk, Machine)>, clipId: string, payload: Bytes, offset: nat)
    requires PartOf(s, clipId) <= payload && Delivers(limits, s, deliveries, clipId, payload, offset)
    requires offset < |payload|
    ensures Delivered(s, ServeAll(rules, limits, s, Puts(deliveries)), clipId, payload, offset)
  {
    hide Size, Used, PutStep, Serve, WellFormed;
    if |deliveries| > 0 {
      var (c, m) := deliveries[|deliveries| - 1];
      var front := deliveries[..|deliveries| - 1];
      DeliveredSoFar(rules, limits, s, front, clipId, payload, c.start);
      OneMorePut(rules, limits, s, deliveries);
      ChunkDelivered(rules, limits, s, ServeAll(rules, limits, s, Puts(front)), c, m, payload);
    }
  }

  lemma {:induction false} OneMorePut(rules: Rules, limits: Limits, s: State, deliveries: seq<(Chunk, Machine)>)
    requires |deliveries| > 0
    ensures var (c, m) := deliveries[|deliveries| - 1];
            ServeAll(rules, limits, s, Puts(deliveries))
            == PutStep(rules, limits, ServeAll(rules, limits, s, Puts(deliveries[..|deliveries| - 1])), c, m).0
  {
    hide PutStep, Serve;
    var (c, m) := deliveries[|deliveries| - 1];
    var all := Puts(deliveries);
    assert all[..|all| - 1] == Puts(deliveries[..|deliveries| - 1]);
    ServePut(rules, limits, ServeAll(rules, limits, s, all[..|all| - 1]), c, m);
  }

  /**
   Delivering the rest of a payload in order, with room for every chunk and a payload that can be
   received, completes the upload: the part is gone, and the store has the audio, under this id unless
   the id or the audio was already there.
   */
  lemma {:induction false} DeliveryCompletes(rules: Rules, limits: Limits, s: State,
      deliveries: seq<(Chunk, Machine)>, clipId: string, payload: Bytes)
    requires Indexed(rules, s) && PartOf(s, clipId) <= payload
    requires |deliveries| > 0 && Delivers(limits, s, deliveries, clipId, payload, |payload|)
    requires var (c, m) := deliveries[|deliveries| - 1];
             Receivable(rules, limits, s, c, m, payload)
    ensures var (c, m) := deliveries[|deliveries| - 1];
            var t, row := ServeAll(rules, limits, s, Puts(deliveries)), NewRow(rules, c.metadata, payload);
            && clipId !in t.parts
            && (exists p :: p in t.files && rules.sha(t.files[p]) == rules.sha(payload))
            && (if FindClip(s.index, clipId) == |s.index| && FindHash(s.index, c.sha256) == |s.index| then
                  t.index == s.index + [row] && t.files == s.files[row.path := payload]
                else t.index == s.index && t.files == s.files)
  {
    hide Size, Used, PutStep, Serve, Receivable, Indexed, Completes;
    var (c, m) := deliveries[|deliveries| - 1];
    var t := ServeAll(rules, limits, s, Puts(deliveries[..|deliveries| - 1]));
    LastDelivered(rules, limits, s, deliveries, clipId, payload);
    StuckWhenRefused(rules, limits, t, c, m, payload);
    PutReportsTruth(rules, limits, t, c, m);
    CompletesPart(limits, t, c, m, payload);
    CompletionStoresPayload(rules, limits, t, c, m, payload);
    CompletionFiles(rules, limits, t, c, m, payload);
    OneMorePut(rules, limits, s, deliveries);
  }

  lemma {:induction false} CompletesPart(limits: Limits, s: State, c: Chunk, m: Machine, payload: Bytes)
    requires Completes(limits, s, c, m, payload)
    ensures CutFrom(c, payload) && PartOf(s, c.clipId) <= payload
  {
  }

  lemma {:induction false} LastDelivered(rules: Rules, limits: Limits, s: State, deliveries: seq<(Chunk, Machine)>,
      clipId: string, payload: Bytes)
    requires Indexed(rules, s) && PartOf(s, clipId) <= payload
    requires |deliveries| > 0 && Delivers(limits, s, deliveries, clipId, payload, |payload|)
    ensures var t := ServeAll(rules, limits, s, Puts(deliveries[..|deliveries| - 1]));
            var (c, m) := deliveries[|deliveries| - 1];
            && Completes(limits, t, c, m, payload) && c.clipId == clipId
            && t.files == s.files && t.index == s.index && Indexed(rules, t)
            && (Receivable(rules, limits, s, c, m, payload) ==> Receivable(rules, limits, t, c, m, payload))
  {
    hide Size, Used, PutStep, Serve, ServeAll, DistinctClips, DistinctHashes, Backed;
    var (c, m) := deliveries[|deliveries| - 1];
    var front := deliveries[..|deliveries| - 1];
    DeliveredSoFar(rules, limits, s, front, clipId, payload, c.start);
    ChunkDelivered(rules, limits, s, ServeAll(rules, limits, s, Puts(front)), c, m, payload);
  }

  // An accepted last chunk adds the payload when its id and its audio are new, and nothing otherwise.
  lemma {:induction false} CompletionFiles(rules: Rules, limits: Limits, s: State, c: Chunk, m: Machine,
      payload: Bytes)
    requires Completes(limits, s, c, m, payload) && PutStep(rules, limits, s, c, m).1.Accepted?
    ensures var t := PutStep(rules, limits, s, c, m).0;
            var row := NewRow(rules, c.metadata, payload);
            if FindClip(s.index, c.clipId) == |s.index| && FindHash(s.index, c.sha256) == |s.index| then
              t.index == s.index + [row] && t.files == s.files[row.path := payload]
            else t.index == s.index && t.files == s.files
  {
    hide Size, Used;
    assert PartOf(s, c.clipId) + c.body == payload;
  }

  // ---------- stored clips ----------

  // The clip is stored: its row, the label aside, and its bytes.
  ghost predicate Has(s: State, row: Row, body: Bytes) {
    var i := FindClip(s.index, row.metadata.clipId);
    && i < |s.index| && s.index[i].(review := row.review) == row
    && row.path in s.files && s.files[row.path] == body
  }

  lemma {:induction false} FindAt(rows: seq<Row>, i: nat)
    requires i < |rows| && forall j :: 0 <= j < i ==> rows[j].metadata.clipId != rows[i].metadata.clipId
    ensures FindClip(rows, rows[i].metadata.clipId) == i
  {
  }

  lemma {:induction false} KeptHas(s: State, t: State, row: Row, body: Bytes)
    requires Has(s, row, body) && KeepsStored(s, t)
    ensures Has(t, row, body)
  {
    var i := FindClip(s.index, row.metadata.clipId);
    assert s.index[i].path == row.path;
    FindAt(t.index, i);
  }

  lemma {:induction false} LabelledHas(s: State, clipId: string, review: Label, row: Row, body: Bytes)
    requires Has(s, row, body)
    ensures Has(s.(index := Labelled(s.index, clipId, review)), row, body)
  {
    var i := FindClip(s.index, row.metadata.clipId);
    FindAt(Labelled(s.index, clipId, review), i);
  }

  // Deleting row d leaves row i where it is or one place earlier, still the first of its id.
  lemma {:induction false} DroppedFind(rows: seq<Row>, i: nat, d: nat)
    requires DistinctClips(rows) && i < |rows| && d < |rows| && i != d
    ensures var rest, k := Dropped(rows, d), if i < d then i else i - 1;
            k < |rest| && FindClip(rest, rows[i].metadata.clipId) == k && rest[k] == rows[i]
  {
    var rest, k := Dropped(rows, d), if i < d then i else i - 1;
    forall j | 0 <= j < k
      ensures rest[j].metadata.clipId != rest[k].metadata.clipId
    {
      assert rest[j] == rows[if j < d then j else j + 1];
    }
    FindAt(rest, k);
  }

  lemma {:induction false} OtherPath(rules: Rules, s: State, i: nat, d: nat)
    requires Indexed(rules, s) && i < |s.index| && d < |s.index|
    requires s.index[i].metadata.clipId != s.index[d].metadata.clipId
    ensures s.index[i].path != s.index[d].path
  {
    assert Backed(rules, s.files, s.index[i]) && Backed(rules, s.files, s.index[d]);
  }

  lemma {:induction false} DeletedHas(rules: Rules, s: State, clipId: string, row: Row, body: Bytes)
    requires Has(s, row, body) && Indexed(rules, s) && row.metadata.clipId != clipId
    ensures Has(DeleteStep(s, clipId).0, row, body)
  {
    hide DistinctHashes, DistinctClips, Backed, Without, Dropped;
    var i, d := FindClip(s.index, row.metadata.clipId), FindClip(s.index, clipId);
    if d < |s.index| {
      WithoutOne(s.index, d);
      OtherPath(rules, s, i, d);
      DroppedFind(s.index, i, d);
    }
  }

  lemma {:induction false} ServeHas(rules: Rules, limits: Limits, s: State, r: Request, m: Machine, row: Row,
      body: Bytes)
    requires Has(s, row, body) && Valid(rules, limits, s) && r != Remove(row.metadata.clipId)
    ensures Has(Serve(rules, limits, s, r, m), row, body)
  {
    hide Has, Indexed, Size, ReceiveStep, PutStep, DeleteStep, Labelled, KeepsStored;
    match r
    case Post(metadata, clip, sha256) =>
      ReceiveKeepsValid(rules, limits, s, metadata, clip, sha256, m, m.diskFree);
      KeptHas(s, Serve(rules, limits, s, r, m), row, body);
    case PutChunk(c) =>
      PutKeepsValid(rules, limits, s, c, m);
      KeptHas(s, Serve(rules, limits, s, r, m), row, body);
    case Review(clipId, review) => LabelledHas(s, clipId, review, row, body);
    case Remove(clipId) => DeletedHas(rules, s, clipId, row, body);
  }

  /**
   Until it is deleted itself, a stored clip keeps its bytes and its row, the label aside, whatever
   else is requested: repeats, other uploads, labels, deletions of other clips.
   */
  lemma {:induction false} StoredClipStays(rules: Rules, limits: Limits, s: State,
      requests: seq<(Request, Machine)>, row: Row, body: Bytes)
    requires Valid(rules, limits, s) && Has(s, row, body)
    requires forall i :: 0 <= i < |requests| ==> requests[i].0 != Remove(row.metadata.clipId)
    ensures Has(ServeAll(rules, limits, s, requests), row, body)
            && Valid(rules, limits, ServeAll(rules, limits, s, requests))
  {
    hide Has, Valid, Serve;
    if |requests| > 0 {
      var front := requests[..|requests| - 1];
      var (r, m) := requests[|requests| - 1];
      assert requests[|requests| - 1].0 == r;
      StoredClipStays(rules, limits, s, front, row, body);
      ServeHas(rules, limits, ServeAll(rules, limits, s, front), r, m, row, body);
      ServeKeepsValid(rules, limits, ServeAll(rules, limits, s, front), r, m);
    }
  }

  // ---------- what each request answers ----------

  ghost predicate HasId(s: State, row: Row, clipId: string) { row in s.index && row.metadata.clipId == clipId }

  ghost predicate IdKnown(s: State, clipId: string) { exists row :: HasId(s, row, clipId) }

  ghost predicate HashKnown(s: State, sha256: string) { exists row :: row in s.index && row.sha256 == sha256 }

  // The store holds other audio under the id.
  ghost predicate IdTaken(s: State, clipId: string, sha256: string, bytes: nat) {
    exists row :: HasId(s, row, clipId) && (row.sha256 != sha256 || row.bytes != bytes)
  }

  lemma {:induction false} FindIsKnown(rules: Rules, s: State, clipId: string, sha256: string)
    requires Indexed(rules, s)
    ensures var i, h := FindClip(s.index, clipId), FindHash(s.index, sha256);
            && (i < |s.index| <==> IdKnown(s, clipId)) && (h < |s.index| <==> HashKnown(s, sha256))
            && (i < |s.index| ==> forall row :: HasId(s, row, clipId) ==> row == s.index[i])
  {
    hide DistinctHashes, Backed;
    var i, h := FindClip(s.index, clipId), FindHash(s.index, sha256);
    if i < |s.index| {
      assert HasId(s, s.index[i], clipId);
      forall row | HasId(s, row, clipId)
        ensures row == s.index[i]
      {
        var j :| 0 <= j < |s.index| && s.index[j] == row;
      }
    }
    if h < |s.index| {
      assert s.index[h] in s.index;
    }
  }

  // Room for the clip beside everything that is stored, the reserved bytes aside.
  ghost predicate HasRoom(limits: Limits, s: State, bytes: nat, reserved: nat, m: Machine, diskFree: int) {
    && m.otherBytes + Size(s.files) + Size(s.parts) - reserved + bytes <= limits.quotaBytes
    && limits.minFreeBytes <= diskFree - bytes
  }

  /**
   Each outcome of receiving a clip, exactly. A stored clip is one new unlabelled row and one new file;
   a known one is named with the path of the row that has its id, or else its audio.
   */
  lemma {:induction false} ReceiveAnswers(rules: Rules, limits: Limits, s: State, metadata: Metadata, body: Bytes,
      sha256: string, reserved: nat, m: Machine, diskFree: int)
    requires Indexed(rules, s)
    ensures var (t, o) := ReceiveStep(rules, limits, s, metadata, body, sha256, reserved, m, diskFree);
            var bad := !rules.admits(metadata, body) || rules.sha(body) != sha256
                       || IdTaken(s, metadata.clipId, sha256, |body|);
            var known := IdKnown(s, metadata.clipId) || HashKnown(s, sha256);
            var room := HasRoom(limits, s, |body|, reserved, m, diskFree);
            && (o.Refused? <==> bad)
            && (o.Known? <==> !bad && known)
            && (o.Stored? <==> !bad && !known && room)
            && (o.QuotaExceeded? <==> !bad && !known && !room)
            && (!o.Stored? ==> t == s)
            && (o.Known? ==>
                 exists row :: row in s.index && row.metadata.clipId == o.clipId && row.path == o.path
                               && (if IdKnown(s, metadata.clipId) then o.clipId == metadata.clipId
                                 else row.sha256 == sha256))
            && (o.Stored? ==>
                 var path := Path(rules.folder(metadata), metadata.clipId);
                 && o.path == path && t.parts == s.parts && t.files == s.files[path := body]
                 && t.index == s.index + [Row(metadata, rules.sha(body), |body|, path, Unlabeled)])
  {
    hide Size, DistinctClips, DistinctHashes, Backed, Indexed, HashKnown;
    FindIsKnown(rules, s, metadata.clipId, rules.sha(body));
    var i, h := FindClip(s.index, metadata.clipId), FindHash(s.index, rules.sha(body));
    if i < |s.index| {
      assert HasId(s, s.index[i], metadata.clipId);
    } else if h < |s.index| {
      assert s.index[h] in s.index;
    }
  }

  // What the server refuses to look at.
  predicate Malformed(c: Chunk) {
    || c.total < 44 || 67108864 < c.total || c.end < c.start || c.end - c.start + 1 != c.contentLength
    || c.metadata.clipId != c.clipId || |c.body| != c.contentLength
  }

  /**
   The answer to a chunk and what it changes, by where it lies against the part: malformed, behind
   its end, elsewhere, without room, and appended before, beyond and at the declared total.
   */
  lemma {:induction false} PutAnswers(rules: Rules, limits: Limits, s: State, c: Chunk, m: Machine)
    ensures var (t, a) := PutStep(rules, limits, s, c, m);
            var part := PartOf(s, c.clipId);
            var room := HasRoom(limits, s, |c.body|, 0, m, m.diskFree);
            var next := |part| + |c.body|;
            && (Malformed(c) ==> t == s && a == BadRequest)
            && (!Malformed(c) && c.end < |part| ==> t == s && a == Continue(|part|))
            && (!Malformed(c) && |part| <= c.end && c.start != |part| ==> t == s && a == Conflict(|part|))
            && (!Malformed(c) && c.start == |part| && !room ==> t == s && a == NoRoom)
            && (!Malformed(c) && c.start == |part| && room && next < c.total ==>
                 t == s.(parts := s.parts[c.clipId := part + c.body]) && a == Continue(next))
            && (!Malformed(c) && c.start == |part| && room && c.total < next ==>
                 t == s.(parts := s.parts[c.clipId := part + c.body]) && a == BadRequest)
  {
    hide Size;
  }

  // An id that is stored with other audio, for a payload that is admitted and intact.
  ghost predicate Unacceptable(rules: Rules, s: State, c: Chunk, payload: Bytes) {
    !rules.admits(c.metadata, payload) || rules.sha(payload) != c.sha256 || IdTaken(s, c.clipId, c.sha256, |payload|)
  }

  /** The answer to the chunk that completes the payload: refused, without room on the disk, known or stored. */
  lemma {:induction false} LastChunkAnswers(rules: Rules, limits: Limits, s: State, c: Chunk, m: Machine,
      payload: Bytes)
    requires Indexed(rules, s) && Completes(limits, s, c, m, payload)
    ensures var (t, a) := PutStep(rules, limits, s, c, m);
            var bad, known := Unacceptable(rules, s, c, payload), IdKnown(s, c.clipId) || HashKnown(s, c.sha256);
            var disk := limits.minFreeBytes <= m.diskFreeAfter - |payload|;
            && (a == BadRequest <==> bad) && (a == NoRoom <==> !bad && !known && !disk)
            && (a.Accepted? && a.duplicate <==> !bad && known)
            && (a.Accepted? && !a.duplicate <==> !bad && !known && disk)
            && (a.Accepted? && !a.duplicate ==> a.clipId == c.clipId)
  {
    hide Size, Indexed, IdKnown, HashKnown, IdTaken;
    assert PartOf(s, c.clipId) + c.body == payload;
    AppendedSize(s, c);
    AppendedIndexed(rules, s, c);
    var s1 := Appended(s, c);
    SameKnown(s, s1, c, |payload|);
    ReceiveAnswers(rules, limits, s1, c.metadata, payload, c.sha256, |payload|, m, m.diskFreeAfter);
    hide ReceiveStep;
  }

  lemma {:induction false} AppendedIndexed(rules: Rules, s: State, c: Chunk)
    requires Indexed(rules, s)
    ensures Indexed(rules, Appended(s, c)) && Appended(s, c).files == s.files && Appended(s, c).index == s.index
  {
    hide Backed, DistinctClips, DistinctHashes;
  }

  lemma {:induction false} SameKnown(s: State, t: State, c: Chunk, bytes: nat)
    requires t.index == s.index
    ensures IdKnown(s, c.clipId) == IdKnown(t, c.clipId) && HashKnown(s, c.sha256) == HashKnown(t, c.sha256)
    ensures IdTaken(s, c.clipId, c.sha256, bytes) == IdTaken(t, c.clipId, c.sha256, bytes)
  {
    assert forall row :: HasId(s, row, c.clipId) == HasId(t, row, c.clipId);
  }

  lemma {:induction false} WithoutHas(rows: seq<Row>, clipId: string, row: Row)
    ensures row in Without(rows, clipId) <==> row in rows && row.metadata.clipId != clipId
  {
    if |rows| > 0 {
      var front, last := rows[..|rows| - 1], rows[|rows| - 1];
      assert rows == front + [last];
      WithoutHas(front, clipId, row);
    }
  }

  /**
   Deleting a clip answers whether it was stored; afterwards neither a row nor a file of that id is
   left, and every other row, in its order, every other file and every part is as before.
   */
  lemma {:induction false} DeleteTells(rules: Rules, s: State, clipId: string)
    requires Indexed(rules, s)
    ensures var (t, deleted) := DeleteStep(s, clipId);
            && (deleted <==> IdKnown(s, clipId)) && !IdKnown(t, clipId)
            && (forall p :: p in t.files <==> p in s.files && p.clipId != clipId)
            && (forall p :: p in t.files ==> t.files[p] == s.files[p])
            && (deleted ==>
                 exists i :: 0 <= i < |s.index| && s.index[i].metadata.clipId == clipId
                   && t.index == Dropped(s.index, i))
            && t.parts == s.parts && (!deleted ==> t == s)
  {
    hide DistinctHashes, Without;
    var (t, deleted) := DeleteStep(s, clipId);
    FindIsKnown(rules, s, clipId, "");
    forall row
      ensures !HasId(t, row, clipId)
    {
      if deleted {
        WithoutHas(s.index, clipId, row);
      }
    }
    forall p | p in s.files && p.clipId == clipId
      ensures deleted && p == s.index[FindClip(s.index, clipId)].path
    {
      PathOfClip(rules, s, p);
    }
    if deleted {
      var i := FindClip(s.index, clipId);
      assert Backed(rules, s.files, s.index[i]);
      WithoutOne(s.index, i);
    }
  }

  lemma {:induction false} PathOfClip(rules: Rules, s: State, p: Path)
    requires Indexed(rules, s) && p in s.files
    ensures var i := FindClip(s.index, p.clipId);
            i < |s.index| && s.index[i].path == p
  {
    hide DistinctHashes;
    var j :| 0 <= j < |s.index| && s.index[j].path == p;
    assert Backed(rules, s.files, s.index[j]);
    FindAt(s.index, j);
  }

  /** Labelling gives the rows of that id the label and changes nothing else. */
  lemma {:induction false} LabelTells(rules: Rules, s: State, clipId: string, review: Label)
    requires Indexed(rules, s)
    ensures var rows := Labelled(s.index, clipId, review);
            && |rows| == |s.index|
            && forall j :: 0 <= j < |rows| ==>
                 rows[j] == if s.index[j].metadata.clipId == clipId then s.index[j].(review := review) else s.index[j]
  {
    hide Backed, DistinctHashes;
  }
}
