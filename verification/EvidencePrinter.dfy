/**
 The broker evidence plugin's event printer: bounded appends into a caller's buffer, JSON quoting,
 the canonical event and its signed envelope. C characters are `char` values, C strings are
 sequences of them without their terminating NUL.
 */
module EvidencePrinter {
  import opened Bytes
  import opened Wrappers

  const NUL: char := '\0'
  const MAX_CLIENT_ID_BYTES: nat := 512
  const MAX_PEER_BYTES: nat := 128
  const MAX_BROKER_BYTES: nat := 128
  const MAX_TOPIC_BYTES: nat := 1024
  const MAX_PAYLOAD_BYTES: nat := 65536
  const MAX_EVENT_BYTES: nat := 8192
  const DIGEST_BYTES: nat := 32

  // Absent topics and hashes are null pointers in the source.
  datatype Event = Event(eventId: string, brokerId: string, kind: string, clientId: string, peerIp: string,
                         topic: Option<string>, payloadHash: Option<string>, observedAt: string)

  // ---------- what is printed ----------

  function HexDigit(d: int): (c: char)
    requires 0 <= d < 16
    ensures '0' <= c <= '9' || 'a' <= c <= 'f'
  {
    "0123456789abcdef"[d]
  }

  function Escaped(c: char): string {
    if c == '"' then "\\\""
    else if c == '\\' then "\\\\"
    else if c == '\U{8}' then "\\b"
    else if c == '\U{c}' then "\\f"
    else if c == '\n' then "\\n"
    else if c == '\r' then "\\r"
    else if c == '\t' then "\\t"
    else if c < ' ' then "\\u00" + [HexDigit(c as int / 16), HexDigit(c as int % 16)]
    else [c]
  }

  /**
   How a character is printed: the quote and the backslash behind a backslash, five control characters
   by their letters, the others by four hexadecimal digits, everything else as it is.
   */
  lemma {:induction false} EscapesAre(c: char)
    ensures Escaped('"') == "\\\"" && Escaped('\\') == "\\\\"
    ensures Escaped(8 as char) == "\\b" && Escaped(9 as char) == "\\t" && Escaped(10 as char) == "\\n"
    ensures Escaped(12 as char) == "\\f" && Escaped(13 as char) == "\\r"
    ensures c as int < 32 && c as int !in {8, 9, 10, 12, 13} ==>
              |Escaped(c)| == 6 && Escaped(c)[..4] == "\\u00" && (c as int < 16 <==> Escaped(c)[4] == '0')
    ensures c as int >= 32 && c != '"' && c != '\\' ==> Escaped(c) == [c]
  {
  }

  function EscapedText(s: string): string {
    if |s| == 0 then "" else Escaped(s[0]) + EscapedText(s[1..])
  }

  function Quoted(s: string): string { "\"" + EscapedText(s) + "\"" }

  function Value(v: Option<string>): string { if v.None? then "null" else Quoted(v.value) }

  function Member(name: string, v: Option<string>): string { name + Value(v) }

  function Canonical(e: Event): string {
    Member("{\"version\":1,\"eventId\":", Some(e.eventId))
    + Member(",\"brokerId\":", Some(e.brokerId))
    + Member(",\"kind\":", Some(e.kind))
    + Member(",\"clientId\":", Some(e.clientId))
    + Member(",\"peerIp\":", Some(e.peerIp))
    + Member(",\"topic\":", e.topic)
    + Member(",\"payloadSha256\":", e.payloadHash)
    + Member(",\"observedAt\":", Some(e.observedAt))
    + "}"
  }

  function Hex(bytes: seq<byte>): (text: string)
    ensures |text| == 2 * |bytes|
  {
    if |bytes| == 0 then ""
    else
      var last := bytes[|bytes| - 1] as int;
      Hex(bytes[..|bytes| - 1]) + [HexDigit(last / 16), HexDigit(last % 16)]
  }

  // The canonical text with its closing brace replaced by the signature member.
  function Envelope(canonical: string, digest: seq<byte>): string
    requires |canonical| > 0
  {
    canonical[..|canonical| - 1] + ",\"signature\":\"" + Hex(digest) + "\"}"
  }

  lemma {:induction false} EscapedTextAppend(s: string, c: char)
    ensures EscapedText(s + [c]) == EscapedText(s) + Escaped(c)
  {
    hide Escaped;
    if |s| == 0 {
      assert s + [c] == [c];
      assert [c][1..] == "";
    } else {
      assert (s + [c])[1..] == s[1..] + [c];
      EscapedTextAppend(s[1..], c);
    }
  }

  // ---------- the printer: (out, cap, &used) of the source ----------

  class Printer {
    const out: array<char>
    const cap: nat
    var used: nat

    ghost predicate Valid()
      reads this, out
    {
      used < cap <= out.Length && out[used] == NUL
    }

    // The C string in the buffer, provided nothing printed holds a NUL.
    ghost function Contents(): string
      reads this, out
      requires used <= out.Length
    {
      out[..used]
    }

    // What lies behind the capacity and must never be written.
    ghost function Beyond(): string
      reads this, out
      requires cap <= out.Length
    {
      out[cap..]
    }

    constructor (out: array<char>, cap: nat)
      requires 0 < cap <= out.Length
      modifies out
      ensures this.out == out && this.cap == cap
      ensures Valid() && Contents() == "" && Beyond() == old(out[cap..])
    {
      this.out, this.cap, this.used := out, cap, 0;
      new;
      out[0] := NUL;
    }

    method AppendText(text: string) returns (ok: bool)
      requires Valid()
      modifies this`used, out
      ensures Valid() && Beyond() == old(Beyond())
      ensures ok <==> |old(Contents())| + |text| < cap
      ensures ok ==> Contents() == old(Contents()) + text
      ensures !ok ==> used == old(used) && out[..] == old(out[..])
    {
      if used + |text| >= cap {
        return false;
      }
      forall i | 0 <= i < |text| {
        out[used + i] := text[i];
      }
      used := used + |text|;
      out[used] := NUL;
      return true;
    }

    method AppendChar(c: char) returns (ok: bool)
      requires Valid()
      modifies this`used, out
      ensures Valid() && Beyond() == old(Beyond())
      ensures ok <==> |old(Contents())| + 1 < cap
      ensures ok ==> Contents() == old(Contents()) + [c]
      ensures !ok ==> used == old(used) && out[..] == old(out[..])
    {
      if used + 1 >= cap {
        return false;
      }
      out[used] := c;
      used := used + 1;
      out[used] := NUL;
      return true;
    }

    method AppendQuoted(text: string) returns (ok: bool)
      requires Valid()
      modifies this`used, out
      ensures Valid() && Beyond() == old(Beyond())
      ensures ok <==> |old(Contents())| + |Quoted(text)| < cap
      ensures ok ==> Contents() == old(Contents()) + Quoted(text)
    {
      hide Escaped, EscapedText;
      ghost var before := Contents();
      ok := AppendText("\"");
      if !ok {
        return;
      }
      var i := 0;
      EmptyEscapes();
      while i < |text|
        invariant 0 <= i <= |text|
        invariant Valid() && Beyond() == old(Beyond())
        invariant Contents() == before + ("\"" + EscapedText(text[..i]))
      {
        PrefixStep(text, i);
        var piece := Escaped(text[i]);
        if piece == [text[i]] {
          ok := AppendChar(text[i]);
        } else {
          ok := AppendText(piece);
        }
        if !ok {
          return;
        }
        i := i + 1;
      }
      assert text[..i] == text;
      ok := AppendText("\"");
    }
  }

  lemma {:induction false} EmptyEscapes()
    ensures EscapedText("") == ""
  {
  }

  lemma {:induction false} EscapedTextPrefix(s: string, i: nat)
    requires i <= |s|
    ensures EscapedText(s) == EscapedText(s[..i]) + EscapedText(s[i..])
  {
    hide Escaped;
    if i == 0 {
      assert s[..0] == "" && s[0..] == s;
    } else {
      assert s[..i][1..] == s[1..][..i - 1];
      assert s[1..][i - 1..] == s[i..];
      EscapedTextPrefix(s[1..], i - 1);
    }
  }

  lemma {:induction false} PrefixStep(s: string, i: nat)
    requires i < |s|
    ensures EscapedText(s[..i + 1]) == EscapedText(s[..i]) + Escaped(s[i])
    ensures |EscapedText(s[..i])| + |Escaped(s[i])| <= |EscapedText(s)|
  {
    hide Escaped, EscapedText;
    assert s[..i + 1] == s[..i] + [s[i]];
    EscapedTextAppend(s[..i], s[i]);
    EscapedTextPrefix(s, i + 1);
  }

  // ---------- the canonical event ----------

  ghost predicate HoldsCString(buffer: array<char>, text: string)
    reads buffer
  {
    |text| < buffer.Length && buffer[..|text|] == text && buffer[|text|] == NUL
  }

  method AppendMember(printer: Printer, name: string, v: Option<string>) returns (ok: bool)
    requires printer.Valid()
    modifies printer`used, printer.out
    ensures printer.Valid() && printer.Beyond() == old(printer.Beyond())
    ensures ok <==> |old(printer.Contents())| + |Member(name, v)| < printer.cap
    ensures ok ==> printer.Contents() == old(printer.Contents()) + Member(name, v)
  {
    hide Quoted;
    ghost var before := printer.Contents();
    ok := printer.AppendText(name);
    if ok {
      match v
      case None => ok := printer.AppendText("null");
      case Some(text) => ok := printer.AppendQuoted(text);
      assert ok ==> printer.Contents() == before + (name + Value(v));
    }
  }

  method PrintEvent(printer: Printer, e: Event) returns (ok: bool)
    requires printer.Valid() && printer.Contents() == ""
    modifies printer`used, printer.out
    ensures printer.Valid() && printer.Beyond() == old(printer.Beyond())
    ensures ok <==> |Canonical(e)| < printer.cap
    ensures ok ==> printer.Contents() == Canonical(e)
  {
    hide Member, Printer.Valid, Printer.Contents, Printer.Beyond;
    ok := AppendMember(printer, "{\"version\":1,\"eventId\":", Some(e.eventId));
    if !ok { return; }
    ok := AppendMember(printer, ",\"brokerId\":", Some(e.brokerId));
    if !ok { return; }
    ok := AppendMember(printer, ",\"kind\":", Some(e.kind));
    if !ok { return; }
    ok := AppendMember(printer, ",\"clientId\":", Some(e.clientId));
    if !ok { return; }
    ok := AppendMember(printer, ",\"peerIp\":", Some(e.peerIp));
    if !ok { return; }
    ok := AppendMember(printer, ",\"topic\":", e.topic);
    if !ok { return; }
    ok := AppendMember(printer, ",\"payloadSha256\":", e.payloadHash);
    if !ok { return; }
    ok := AppendMember(printer, ",\"observedAt\":", Some(e.observedAt));
    if !ok { return; }
    ok := printer.AppendText("}");
  }

  // Prints the whole canonical text, or fails exactly when it and its NUL do not fit.
  method CanonicalEvent(out: array<char>, cap: nat, e: Event) returns (ok: bool)
    requires 0 < cap <= out.Length
    modifies out
    ensures ok <==> |Canonical(e)| < cap
    ensures ok ==> HoldsCString(out, Canonical(e))
    ensures out[cap..] == old(out[cap..])
  {
    hide Canonical;
    var printer := new Printer(out, cap);
    ok := PrintEvent(printer, e);
  }

  // ---------- the signed envelope ----------

  // strlen and the string up to it.
  method ReadCString(buffer: array<char>) returns (text: string)
    requires NUL in buffer[..]
    ensures HoldsCString(buffer, text) && NUL !in text
  {
    var n := 0;
    while buffer[n] != NUL
      invariant 0 <= n < buffer.Length && NUL !in buffer[..n] && NUL in buffer[n..]
      decreases buffer.Length - n
    {
      n := n + 1;
    }
    text := buffer[..n];
  }

  // snprintf into out[at..at + size]: truncates, and always terminates.
  method PrintTruncated(out: array<char>, at: nat, size: nat, text: string)
    requires 0 < size && at + size <= out.Length
    modifies out
    ensures var n := if |text| < size then |text| else size - 1;
            out[..] == old(out[..at]) + text[..n] + [NUL] + old(out[at + n + 1..])
  {
    var n := if |text| < size then |text| else size - 1;
    forall i | 0 <= i < n {
      out[at + i] := text[i];
    }
    out[at + n] := NUL;
  }

  // The lower-case hexadecimal signature, in the source's 65-byte buffer.
  method PrintSignature(digest: seq<byte>) returns (signature: array<char>)
    requires |digest| == DIGEST_BYTES
    ensures fresh(signature) && signature.Length == 65
    ensures signature[..64] == Hex(digest) && signature[64] == NUL
  {
    hide HexDigit;
    signature := new char[65];
    var i := 0;
    signature[0] := NUL;
    while i < DIGEST_BYTES
      invariant 0 <= i <= DIGEST_BYTES
      invariant signature[..2 * i] == Hex(digest[..i]) && signature[2 * i] == NUL
    {
      var octet := digest[i] as int;
      assert digest[..i + 1][..i] == digest[..i];
      ghost var before := signature[..2 * i];
      signature[2 * i], signature[2 * i + 1] := HexDigit(octet / 16), HexDigit(octet % 16);
      signature[2 * i + 2] := NUL;
      assert signature[..2 * i + 2] == before + [HexDigit(octet / 16), HexDigit(octet % 16)];
      i := i + 1;
    }
    assert digest[..i] == digest;
  }

  // The digest is what the keyed hash returned for the canonical text; None when it failed.
  method JsonWithSignature(out: array<char>, cap: nat, canonical: string, digest: Option<seq<byte>>)
    returns (ok: bool)
    requires cap <= out.Length && |canonical| > 0
    modifies out
    ensures ok <==> digest.Some? && |digest.value| == DIGEST_BYTES && |canonical| + 81 < cap
                    && canonical[|canonical| - 1] == '}'
    ensures ok ==> HoldsCString(out, Envelope(canonical, digest.value)) && out[cap..] == old(out[cap..])
    ensures !ok ==> out[..] == old(out[..])
  {
    hide Hex;
    if digest.None? || |digest.value| != DIGEST_BYTES {
      return false;
    }
    var signature := PrintSignature(digest.value);
    var length := |canonical|;
    if length + 81 >= cap || canonical[length - 1] != '}' {
      return false;
    }
    forall k | 0 <= k < length - 1 {
      out[k] := canonical[k];
    }
    ghost var envelope := Envelope(canonical, digest.value);
    var tail := ",\"signature\":\"" + signature[..64] + "\"}";
    assert envelope == out[..length - 1] + tail;
    PrintTruncated(out, length - 1, cap - length + 1, tail);
    assert out[..|envelope|] == envelope;
    return true;
  }

  // ---------- emitting an event ----------

  predicate Printable(s: string) {
    forall i :: 0 <= i < |s| ==> ' ' <= s[i] && s[i] as int != 0x7f
  }

  predicate ValidConfigValue(value: Option<string>, maxBytes: nat) {
    value.Some? && 0 < |value.value| <= maxBytes && Printable(value.value)
  }

  method CheckConfigValue(value: Option<string>, maxBytes: nat) returns (valid: bool)
    ensures valid <==> ValidConfigValue(value, maxBytes)
    ensures valid <==> value.Some? && value.value != "" && |value.value| <= maxBytes
                       && forall c :: c in value.value ==> 32 <= c as int && c as int != 127
  {
    if value.None? || |value.value| == 0 || |value.value| > maxBytes {
      return false;
    }
    for i := 0 to |value.value|
      invariant Printable(value.value[..i])
    {
      if value.value[i] < ' ' || value.value[i] as int == 0x7f {
        assert value.value[i] in value.value;
        return false;
      }
    }
    assert value.value[..|value.value|] == value.value;
    return true;
  }

  lemma {:induction false} EscapedBound(s: string)
    requires Printable(s)
    ensures |Quoted(s)| <= 2 * |s| + 2
  {
    if |s| > 0 {
      EscapedBound(s[1..]);
    }
  }

  // Everything the plugin's own checks let through fits the event buffers.
  predicate Admissible(e: Event) {
    && |e.eventId| == 36 && Printable(e.eventId)
    && ValidConfigValue(Some(e.brokerId), MAX_BROKER_BYTES)
    && |e.kind| <= 10 && Printable(e.kind)
    && ValidConfigValue(Some(e.clientId), MAX_CLIENT_ID_BYTES)
    && ValidConfigValue(Some(e.peerIp), MAX_PEER_BYTES)
    && (e.topic.Some? ==> ValidConfigValue(e.topic, MAX_TOPIC_BYTES))
    && (e.payloadHash.Some? ==> |e.payloadHash.value| == 64 && Printable(e.payloadHash.value))
    && |e.observedAt| == 24 && Printable(e.observedAt)
  }

  lemma {:induction false} AdmissibleFits(e: Event)
    requires Admissible(e)
    ensures |Canonical(e)| + 81 < 8192
  {
    hide Escaped, EscapedText, Quoted, Printable;
    EscapedBound(e.eventId);
    EscapedBound(e.brokerId);
    EscapedBound(e.kind);
    EscapedBound(e.clientId);
    EscapedBound(e.peerIp);
    if e.topic.Some? {
      EscapedBound(e.topic.value);
    }
    if e.payloadHash.Some? {
      EscapedBound(e.payloadHash.value);
    }
    EscapedBound(e.observedAt);
  }

  // Clock, event id, payload hash and keyed hash are inputs. An event is dropped only when it is
  // refused by the checks or the keyed hash fails: never for want of room.
  method EmitEvent(brokerId: string, eventId: string, kind: string, clientId: Option<string>, peerIp: Option<string>,
                   topic: Option<string>, payloadBytes: nat, payloadHash: string, observedAt: string,
                   mac: string -> Option<seq<byte>>) returns (published: Option<string>)
    requires ValidConfigValue(Some(brokerId), 128)
    requires |eventId| == 36 && Printable(eventId)
    requires kind == "publish" || kind == "disconnect"
    requires |payloadHash| == 64 && Printable(payloadHash)
    requires |observedAt| == 24 && Printable(observedAt)
    ensures published.Some? <==>
      && ValidConfigValue(clientId, 512) && ValidConfigValue(peerIp, 128)
      && (topic.Some? ==> ValidConfigValue(topic, 1024) && payloadBytes <= 65536)
      && var e := Event(eventId, brokerId, kind, clientId.value, peerIp.value, topic,
                        if topic.Some? then Some(payloadHash) else None, observedAt);
         mac(Canonical(e)).Some? && |mac(Canonical(e)).value| == 32
    ensures published.Some? ==>
      var e := Event(eventId, brokerId, kind, clientId.value, peerIp.value, topic,
                     if topic.Some? then Some(payloadHash) else None, observedAt);
      published.value == Envelope(Canonical(e), mac(Canonical(e)).value)
  {
    hide Canonical, Envelope;
    var validClient := CheckConfigValue(clientId, MAX_CLIENT_ID_BYTES);
    var validPeer := CheckConfigValue(peerIp, MAX_PEER_BYTES);
    if !validClient || !validPeer {
      return None;
    }
    if topic.Some? {
      var validTopic := CheckConfigValue(topic, MAX_TOPIC_BYTES);
      if !validTopic || payloadBytes > MAX_PAYLOAD_BYTES {
        return None;
      }
    }
    var e := Event(eventId, brokerId, kind, clientId.value, peerIp.value, topic,
                   if topic.Some? then Some(payloadHash) else None, observedAt);
    ShortKind(kind);
    AdmissibleFits(e);
    CanonicalShape(e);
    var canonical := new char[MAX_EVENT_BYTES];
    var printed := CanonicalEvent(canonical, MAX_EVENT_BYTES, e);
    var text := ReadCString(canonical);
    CStringUnique(canonical, text, Canonical(e));
    var envelope := new char[MAX_EVENT_BYTES];
    var signed := JsonWithSignature(envelope, MAX_EVENT_BYTES, text, mac(text));
    if !signed {
      return None;
    }
    EnvelopeShape(text, mac(text).value);
    var message := ReadCString(envelope);
    CStringUnique(envelope, message, Envelope(text, mac(text).value));
    return Some(message);
  }

  lemma {:induction false} ShortKind(kind: string)
    requires kind == "publish" || kind == "disconnect"
    ensures |kind| <= 10 && Printable(kind)
  {
  }

  lemma {:induction false} CStringUnique(buffer: array<char>, a: string, b: string)
    requires HoldsCString(buffer, a) && HoldsCString(buffer, b) && NUL !in a && NUL !in b
    ensures a == b
  {
    assert forall k :: 0 <= k < |a| ==> buffer[k] == a[k] != NUL;
    assert forall k :: 0 <= k < |b| ==> buffer[k] == b[k] != NUL;
  }

  // Nothing printed holds a NUL, whatever the fields hold.
  lemma {:induction false} EscapedTextHasNoNul(s: string)
    ensures NUL !in EscapedText(s)
  {
    if |s| > 0 {
      EscapedTextHasNoNul(s[1..]);
    }
  }

  lemma {:induction false} MemberHasNoNul(name: string, v: Option<string>)
    requires NUL !in name
    ensures NUL !in Member(name, v)
  {
    if v.Some? {
      EscapedTextHasNoNul(v.value);
    }
  }

  lemma {:induction false} CanonicalShape(e: Event)
    ensures |Canonical(e)| > 0 && Canonical(e)[|Canonical(e)| - 1] == '}' && NUL !in Canonical(e)
  {
    hide Member;
    MemberHasNoNul("{\"version\":1,\"eventId\":", Some(e.eventId));
    MemberHasNoNul(",\"brokerId\":", Some(e.brokerId));
    MemberHasNoNul(",\"kind\":", Some(e.kind));
    MemberHasNoNul(",\"clientId\":", Some(e.clientId));
    MemberHasNoNul(",\"peerIp\":", Some(e.peerIp));
    MemberHasNoNul(",\"topic\":", e.topic);
    MemberHasNoNul(",\"payloadSha256\":", e.payloadHash);
    MemberHasNoNul(",\"observedAt\":", Some(e.observedAt));
  }

  lemma {:induction false} HexHasNoNul(bytes: seq<byte>)
    ensures NUL !in Hex(bytes)
  {
    if |bytes| > 0 {
      HexHasNoNul(bytes[..|bytes| - 1]);
    }
  }

  lemma {:induction false} EnvelopeShape(canonical: string, digest: seq<byte>)
    requires |canonical| > 0 && NUL !in canonical
    ensures NUL !in Envelope(canonical, digest)
  {
    HexHasNoNul(digest);
  }

  // ---------- a reader: strings as in section 7 of RFC 8259 ----------

  function HexValue(c: char): (v: Option<int>)
    ensures v.Some? ==> 0 <= v.value < 16
  {
    if '0' <= c <= '9' then Some(c as int - '0' as int)
    else if 'a' <= c <= 'f' then Some(c as int - 'a' as int + 10)
    else if 'A' <= c <= 'F' then Some(c as int - 'A' as int + 10)
    else None
  }

  // One character of a string, after its opening quote; escapes of surrogates are refused.
  function ReadChar(s: string): (r: Option<(char, string)>)
    requires |s| > 0
    ensures r.Some? ==> |r.value.1| < |s|
  {
    if s[0] == '"' || s[0] < ' ' then None
    else if s[0] != '\\' then Some((s[0], s[1..]))
    else if |s| < 2 then None
    else if s[1] == 'u' then
      if |s| < 6 then None
      else
        var a :- HexValue(s[2]);
        var b :- HexValue(s[3]);
        var c :- HexValue(s[4]);
        var d :- HexValue(s[5]);
        var code := ((a * 16 + b) * 16 + c) * 16 + d;
        if code < 0xd800 then Some((code as char, s[6..])) else None
    else if s[1] == '"' || s[1] == '\\' || s[1] == '/' then Some((s[1], s[2..]))
    else if s[1] == 'b' then Some(('\U{8}', s[2..]))
    else if s[1] == 'f' then Some(('\U{c}', s[2..]))
    else if s[1] == 'n' then Some(('\n', s[2..]))
    else if s[1] == 'r' then Some(('\r', s[2..]))
    else if s[1] == 't' then Some(('\t', s[2..]))
    else None
  }

  // The rest of a string up to its closing quote, and what follows the quote.
  function ReadText(s: string): (r: Option<(string, string)>)
    decreases |s|
  {
    if |s| == 0 then None
    else if s[0] == '"' then Some(("", s[1..]))
    else
      var first :- ReadChar(s);
      var others :- ReadText(first.1);
      Some(([first.0] + others.0, others.1))
  }

  function ReadValue(s: string): Option<(Option<string>, string)> {
    if "null" <= s then Some((None, s[4..]))
    else if |s| > 0 && s[0] == '"' then
      var text :- ReadText(s[1..]);
      Some((Some(text.0), text.1))
    else None
  }

  function ReadMember(name: string, s: string): Option<(Option<string>, string)> {
    if name <= s then ReadValue(s[|name|..]) else None
  }

  function ReadEvent(s: string): Option<(Event, string)> {
    var eventId :- ReadMember("{\"version\":1,\"eventId\":", s);
    var brokerId :- ReadMember(",\"brokerId\":", eventId.1);
    var kind :- ReadMember(",\"kind\":", brokerId.1);
    var clientId :- ReadMember(",\"clientId\":", kind.1);
    var peerIp :- ReadMember(",\"peerIp\":", clientId.1);
    var topic :- ReadMember(",\"topic\":", peerIp.1);
    var payloadHash :- ReadMember(",\"payloadSha256\":", topic.1);
    var observedAt :- ReadMember(",\"observedAt\":", payloadHash.1);
    if "}" <= observedAt.1 && eventId.0.Some? && brokerId.0.Some? && kind.0.Some? && clientId.0.Some?
       && peerIp.0.Some? && observedAt.0.Some?
    then Some((Event(eventId.0.value, brokerId.0.value, kind.0.value, clientId.0.value, peerIp.0.value,
                     topic.0, payloadHash.0, observedAt.0.value), observedAt.1[1..]))
    else None
  }

  lemma {:induction false} ReadBackChar(c: char, rest: string)
    ensures Escaped(c)[0] != '"'
    ensures ReadChar(Escaped(c) + rest) == Some((c, rest))
  {
    if c < ' ' {
      var d := c as int;
      assert d == 16 * (d / 16) + d % 16;
      HexReadsBack(d / 16);
      HexReadsBack(d % 16);
    }
  }

  lemma {:induction false} HexReadsBack(d: int)
    requires 0 <= d < 16
    ensures HexValue(HexDigit(d)) == Some(d)
  {
  }

  lemma {:induction false} ReadBackText(s: string, rest: string)
    ensures ReadText(EscapedText(s) + "\"" + rest) == Some((s, rest))
  {
    hide Escaped, ReadChar;
    if |s| == 0 {
      assert EscapedText(s) + "\"" + rest == "\"" + rest;
    } else {
      var following := EscapedText(s[1..]) + "\"" + rest;
      assert EscapedText(s) + "\"" + rest == Escaped(s[0]) + following;
      ReadBackChar(s[0], following);
      ReadBackText(s[1..], rest);
      assert [s[0]] + s[1..] == s;
    }
  }

  // Un-escaping a quoted string gives back the string, wherever it stands.
  lemma {:induction false} QuotedReadsBack(s: string, rest: string)
    ensures ReadValue(Quoted(s) + rest) == Some((Some(s), rest))
  {
    hide EscapedText, ReadChar, ReadText;
    ReadBackText(s, rest);
    assert (Quoted(s) + rest)[0] == '"' != "null"[0];
    assert (Quoted(s) + rest)[1..] == EscapedText(s) + "\"" + rest;
  }

  lemma {:induction false} MemberReadsBack(name: string, v: Option<string>, rest: string)
    ensures ReadMember(name, Member(name, v) + rest) == Some((v, rest))
  {
    hide Quoted;
    assert (Member(name, v) + rest)[|name|..] == Value(v) + rest;
    assert name <= Member(name, v) + rest;
    if v.Some? {
      QuotedReadsBack(v.value, rest);
    } else {
      assert ("null" + rest)[4..] == rest;
    }
  }

  // The canonical text from each member on.
  function TextFrom(e: Event, k: nat, rest: string): string
    decreases 8 - k
  {
    match k
    case 0 => Member("{\"version\":1,\"eventId\":", Some(e.eventId)) + TextFrom(e, 1, rest)
    case 1 => Member(",\"brokerId\":", Some(e.brokerId)) + TextFrom(e, 2, rest)
    case 2 => Member(",\"kind\":", Some(e.kind)) + TextFrom(e, 3, rest)
    case 3 => Member(",\"clientId\":", Some(e.clientId)) + TextFrom(e, 4, rest)
    case 4 => Member(",\"peerIp\":", Some(e.peerIp)) + TextFrom(e, 5, rest)
    case 5 => Member(",\"topic\":", e.topic) + TextFrom(e, 6, rest)
    case 6 => Member(",\"payloadSha256\":", e.payloadHash) + TextFrom(e, 7, rest)
    case 7 => Member(",\"observedAt\":", Some(e.observedAt)) + ("}" + rest)
    case _ => rest
  }

  lemma {:induction false} Regroup(a: string, b: string, c: string)
    ensures (a + b) + c == a + (b + c)
  {
  }

  lemma {:induction false} CanonicalFromStart(e: Event, rest: string)
    ensures Canonical(e) + rest == TextFrom(e, 0, rest)
  {
    hide Member;
    var m0 := Member("{\"version\":1,\"eventId\":", Some(e.eventId));
    var m1 := m0 + Member(",\"brokerId\":", Some(e.brokerId));
    var m2 := m1 + Member(",\"kind\":", Some(e.kind));
    var m3 := m2 + Member(",\"clientId\":", Some(e.clientId));
    var m4 := m3 + Member(",\"peerIp\":", Some(e.peerIp));
    var m5 := m4 + Member(",\"topic\":", e.topic);
    var m6 := m5 + Member(",\"payloadSha256\":", e.payloadHash);
    Regroup(m6 + Member(",\"observedAt\":", Some(e.observedAt)), "}", rest);
    Regroup(m6, Member(",\"observedAt\":", Some(e.observedAt)), "}" + rest);
    Regroup(m5, Member(",\"payloadSha256\":", e.payloadHash), TextFrom(e, 7, rest));
    Regroup(m4, Member(",\"topic\":", e.topic), TextFrom(e, 6, rest));
    Regroup(m3, Member(",\"peerIp\":", Some(e.peerIp)), TextFrom(e, 5, rest));
    Regroup(m2, Member(",\"clientId\":", Some(e.clientId)), TextFrom(e, 4, rest));
    Regroup(m1, Member(",\"kind\":", Some(e.kind)), TextFrom(e, 3, rest));
    Regroup(m0, Member(",\"brokerId\":", Some(e.brokerId)), TextFrom(e, 2, rest));
  }

  // The canonical text is uniquely decodable: the reader gets back all eight fields.
  lemma {:induction false} EventReadsBack(e: Event, rest: string)
    ensures ReadEvent(Canonical(e) + rest) == Some((e, rest))
  {
    hide Member, ReadMember, Canonical;
    CanonicalFromStart(e, rest);
    MemberReadsBack("{\"version\":1,\"eventId\":", Some(e.eventId), TextFrom(e, 1, rest));
    MemberReadsBack(",\"brokerId\":", Some(e.brokerId), TextFrom(e, 2, rest));
    MemberReadsBack(",\"kind\":", Some(e.kind), TextFrom(e, 3, rest));
    MemberReadsBack(",\"clientId\":", Some(e.clientId), TextFrom(e, 4, rest));
    MemberReadsBack(",\"peerIp\":", Some(e.peerIp), TextFrom(e, 5, rest));
    MemberReadsBack(",\"topic\":", e.topic, TextFrom(e, 6, rest));
    MemberReadsBack(",\"payloadSha256\":", e.payloadHash, TextFrom(e, 7, rest));
    MemberReadsBack(",\"observedAt\":", Some(e.observedAt), "}" + rest);
    assert ("}" + rest)[1..] == rest;
  }

  // Two events with the same canonical text, even followed by other text, are the same event.
  lemma {:induction false} CanonicalInjective(e1: Event, rest1: string, e2: Event, rest2: string)
    requires Canonical(e1) + rest1 == Canonical(e2) + rest2
    ensures e1 == e2 && rest1 == rest2
  {
    hide *;
    EventReadsBack(e1, rest1);
    EventReadsBack(e2, rest2);
  }

  lemma {:induction false} HexInjective(a: seq<byte>, b: seq<byte>)
    requires Hex(a) == Hex(b)
    ensures a == b
  {
    if |a| > 0 && |b| > 0 {
      var n := |Hex(a)|;
      var x, y := a[|a| - 1] as int, b[|b| - 1] as int;
      assert Hex(a)[..n - 2] == Hex(a[..|a| - 1]);
      assert Hex(b)[..n - 2] == Hex(b[..|b| - 1]);
      HexInjective(a[..|a| - 1], b[..|b| - 1]);
      assert Hex(a)[n - 2] == HexDigit(x / 16) && Hex(a)[n - 1] == HexDigit(x % 16);
      assert Hex(b)[n - 2] == HexDigit(y / 16) && Hex(b)[n - 1] == HexDigit(y % 16);
      HexReadsBack(x / 16);
      HexReadsBack(x % 16);
      HexReadsBack(y / 16);
      HexReadsBack(y % 16);
    }
  }

  // The envelope determines the event and the digest that signed it.
  lemma {:induction false} EnvelopeInjective(e1: Event, d1: seq<byte>, e2: Event, d2: seq<byte>)
    requires |d1| == DIGEST_BYTES && |d2| == DIGEST_BYTES
    requires |Canonical(e1)| > 0 && |Canonical(e2)| > 0
    requires Envelope(Canonical(e1), d1) == Envelope(Canonical(e2), d2)
    ensures e1 == e2 && d1 == d2
  {
    hide Canonical, Hex;
    CanonicalShape(e1);
    CanonicalShape(e2);
    SameParts(Canonical(e1), d1, Canonical(e2), d2);
    CanonicalInjective(e1, "", e2, "");
    HexInjective(d1, d2);
  }

  lemma {:induction false} SameParts(c1: string, d1: seq<byte>, c2: string, d2: seq<byte>)
    requires |d1| == |d2| && |c1| > 0 && |c2| > 0 && c1[|c1| - 1] == c2[|c2| - 1]
    requires Envelope(c1, d1) == Envelope(c2, d2)
    ensures c1 + "" == c2 + "" && Hex(d1) == Hex(d2)
  {
    hide Hex;
    var n := |c1| - 1;
    var env1, env2 := Envelope(c1, d1), Envelope(c2, d2);
    assert env1[..n] == c1[..n] && env2[..n] == c2[..n];
    assert c1 == c1[..n] + [c1[n]] && c2 == c2[..n] + [c2[n]];
    assert env1[n + 14..][..|Hex(d1)|] == Hex(d1);
    assert env2[n + 14..][..|Hex(d2)|] == Hex(d2);
  }

  // ---------- the rate limit ----------

  // Events are admitted by the second of a monotonic clock.
  class RateLimit {
    var second: int
    var count: nat

    constructor ()
      ensures second == 0 && count == 0
    {
      second, count := 0, 0;
    }

    // now is None when the clock fails; the lock is only tried.
    method TakeSlot(now: Option<int>, lockFree: bool) returns (allowed: bool)
      modifies this
      ensures ((second, count), allowed) == SlotStep((old(second), old(count)), now, lockFree)
    {
      if now.None? || !lockFree {
        return false;
      }
      if second != now.value {
        second := now.value;
        count := 0;
      }
      allowed := count < 100;
      if allowed {
        count := count + 1;
      }
    }
  }

  function SlotStep(s: (int, nat), now: Option<int>, lockFree: bool): ((int, nat), bool) {
    if now.None? || !lockFree then (s, false)
    else
      var count := if s.0 == now.value then s.1 else 0;
      if count < 100 then ((now.value, count + 1), true) else ((now.value, count), false)
  }

  datatype Request = Request(now: Option<int>, lockFree: bool)

  // The state after the requests, from that of a new limiter.
  function Slots(requests: seq<Request>): (int, nat) {
    if |requests| == 0 then (0, 0)
    else
      var last := requests[|requests| - 1];
      SlotStep(Slots(requests[..|requests| - 1]), last.now, last.lockFree).0
  }

  predicate Granted(requests: seq<Request>, i: nat)
    requires i < |requests|
  {
    SlotStep(Slots(requests[..i]), requests[i].now, requests[i].lockFree).1
  }

  // The clock never goes back, and starts at zero or later.
  ghost predicate Monotonic(requests: seq<Request>) {
    && (forall i :: 0 <= i < |requests| && requests[i].now.Some? ==> requests[i].now.value >= 0)
    && forall i, j :: 0 <= i < j < |requests| && requests[i].now.Some? && requests[j].now.Some? ==>
         requests[i].now.value <= requests[j].now.value
  }

  // Requests of one second that could be looked at, among the first n.
  function Asked(requests: seq<Request>, n: nat, second: int): set<int>
    requires n <= |requests|
  {
    set i | 0 <= i < n && requests[i].now == Some(second) && requests[i].lockFree
  }

  ghost predicate IsAsked(requests: seq<Request>, i: int, second: int) {
    0 <= i < |requests| && requests[i].now == Some(second) && requests[i].lockFree
  }

  // The limiter's second is the latest one asked for, if any was, and its count is of that second.
  ghost predicate Counts(requests: seq<Request>, s: (int, nat)) {
    && (s.0 == 0 || exists i :: IsAsked(requests, i, s.0))
    && (forall i, second :: IsAsked(requests, i, second) ==> second <= s.0)
    && s.1 == (var asked := |Asked(requests, |requests|, s.0)|; if asked < 100 then asked else 100)
  }

  lemma {:induction false} SlotsCount(requests: seq<Request>)
    requires Monotonic(requests)
    ensures Counts(requests, Slots(requests))
  {
    hide Counts, SlotStep, Asked, IsAsked;
    if |requests| == 0 {
      NothingAsked();
    } else {
      var front, last := requests[..|requests| - 1], requests[|requests| - 1];
      assert requests == front + [last];
      SlotsCount(front);
      if last.now.Some? && last.lockFree {
        NotBefore(front, last, Slots(front).0, Slots(front));
        AskedCounts(front, last, Slots(front));
      } else {
        OthersCount(front, last, Slots(front));
      }
    }
  }

  lemma {:induction false} NothingAsked()
    ensures Counts([], (0, 0))
  {
    assert Asked([], 0, 0) == {};
  }

  lemma {:induction false} OthersCount(requests: seq<Request>, r: Request, s: (int, nat))
    requires Counts(requests, s) && !(r.now.Some? && r.lockFree)
    ensures Counts(requests + [r], SlotStep(s, r.now, r.lockFree).0)
  {
    var all := requests + [r];
    assert Asked(all, |all|, s.0) == Asked(requests, |requests|, s.0);
    AskedMore(requests, r);
  }

  lemma {:induction false} AskedCounts(requests: seq<Request>, r: Request, s: (int, nat))
    requires Counts(requests, s) && r.now.Some? && r.lockFree && s.0 <= r.now.value
    ensures Counts(requests + [r], SlotStep(s, r.now, r.lockFree).0)
  {
    var all, second := requests + [r], r.now.value;
    AskedMore(requests, r);
    assert IsAsked(all, |requests|, second);
    assert Asked(all, |all|, second) == Asked(requests, |requests|, second) + {|requests|};
    if second != s.0 {
      NoneAsked(requests, second);
    }
  }

  lemma {:induction false} AskedMore(requests: seq<Request>, r: Request)
    ensures forall i, second ::
              IsAsked(requests + [r], i, second)
              <==> IsAsked(requests, i, second) || (i == |requests| && r.now == Some(second) && r.lockFree)
  {
  }

  lemma {:induction false} NotBefore(requests: seq<Request>, r: Request, second: int, s: (int, nat))
    requires Monotonic(requests + [r]) && r.now.Some? && Counts(requests, s) && second == s.0
    ensures second <= r.now.value
  {
    hide Asked;
    var all := requests + [r];
    assert all[|requests|] == r;
    if second != 0 {
      var i :| IsAsked(requests, i, second);
      assert all[i] == requests[i];
    }
  }

  lemma {:induction false} NoneAsked(requests: seq<Request>, second: int)
    requires forall i, earlier :: IsAsked(requests, i, earlier) ==> earlier < second
    ensures Asked(requests, |requests|, second) == {}
  {
    forall i | 0 <= i < |requests|
      ensures !(requests[i].now == Some(second) && requests[i].lockFree)
    {
      assert !IsAsked(requests, i, second);
    }
  }

  /**
   With a clock that does not go back, a request is admitted exactly when fewer than a hundred were
   looked at before it in the same second: never more than a hundred a second, and all of them below
   that.
   */
  lemma {:induction false} GrantedExactly(requests: seq<Request>, i: nat)
    requires Monotonic(requests) && i < |requests|
    ensures Granted(requests, i)
        <==> requests[i].now.Some? && requests[i].lockFree && |Asked(requests, i, requests[i].now.value)| < 100
  {
    var front := requests[..i];
    SlotsCount(front);
    if requests[i].now.Some? && requests[i].lockFree {
      var second := requests[i].now.value;
      var known := requests[..i + 1];
      assert known == front + [requests[i]];
      NotBefore(front, requests[i], Slots(front).0, Slots(front));
      assert Asked(front, i, second) == Asked(requests, i, second);
      if Slots(front).0 != second {
        NoneAsked(front, second);
      }
    }
  }
}
