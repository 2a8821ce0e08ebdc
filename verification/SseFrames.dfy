/**
 The portal's server-sent event splitter. JSON parsing is a parameter: None where it throws.
 */
module SseFrames {
  import opened Wrappers

  datatype Frame<T> = Frame(event: string, data: T)

  datatype Taken<T> = Taken(frames: seq<Frame<T>>, remainder: string)

  // ---------- line ends and separators ----------

  // The length of \r?\n at the start of the text, or 0.
  function BreakLength(s: string): (n: nat)
    ensures n <= 2 && n <= |s|
  {
    if "\n" <= s then 1 else if "\r\n" <= s then 2 else 0
  }

  // The length of \r?\n\r?\n at the start of the text, or 0.
  function SeparatorLength(s: string): (n: nat)
    ensures n <= 4 && n <= |s|
  {
    var first := BreakLength(s);
    if first == 0 then 0
    else
      var second := BreakLength(s[first..]);
      if second == 0 then 0 else first + second
  }

  // The leftmost match.
  function FindBreak(s: string): (r: Option<nat>)
    ensures r.Some? ==> r.value < |s| && BreakLength(s[r.value..]) > 0
  {
    if |s| == 0 then None
    else if BreakLength(s) > 0 then Some(0)
    else
      var i :- FindBreak(s[1..]);
      assert s[1..][i..] == s[i + 1..];
      Some(i + 1)
  }

  function FindSeparator(s: string): (r: Option<nat>)
    ensures r.Some? ==> r.value < |s| && SeparatorLength(s[r.value..]) > 0
  {
    if |s| == 0 then None
    else if SeparatorLength(s) > 0 then Some(0)
    else
      var i :- FindSeparator(s[1..]);
      assert s[1..][i..] == s[i + 1..];
      Some(i + 1)
  }

  // split(/\r?\n/)
  function Lines(s: string): (r: seq<string>)
    decreases |s|
  {
    var i := FindBreak(s);
    if i.None? then [s] else [s[..i.value]] + Lines(s[i.value..][BreakLength(s[i.value..])..])
  }

  // ---------- one frame ----------

  function IndexOfColon(line: string): (k: nat)
    ensures k <= |line| && (k < |line| ==> line[k] == ':') && forall i :: 0 <= i < k ==> line[i] != ':'
  {
    if |line| == 0 || line[0] == ':' then 0 else 1 + IndexOfColon(line[1..])
  }

  function FieldName(line: string): string { line[..IndexOfColon(line)] }

  function FieldValue(line: string): string {
    var k := IndexOfColon(line);
    if k == |line| then "" else if " " <= line[k + 1..] then line[k + 2..] else line[k + 1..]
  }

  predicate Skipped(line: string) { |line| == 0 || line[0] == ':' }

  function EventOf(lines: seq<string>): string {
    if |lines| == 0 then "message"
    else
      var last := lines[|lines| - 1];
      if !Skipped(last) && FieldName(last) == "event" then FieldValue(last) else EventOf(lines[..|lines| - 1])
  }

  function DataOf(lines: seq<string>): seq<string> {
    if |lines| == 0 then []
    else
      var last := lines[|lines| - 1];
      DataOf(lines[..|lines| - 1])
      + if !Skipped(last) && FieldName(last) == "data" then [FieldValue(last)] else []
  }

  function Join(parts: seq<string>, separator: string): string {
    if |parts| == 0 then ""
    else if |parts| == 1 then parts[0]
    else parts[0] + separator + Join(parts[1..], separator)
  }

  function FrameOf<T>(raw: string, parse: string -> Option<T>): seq<Frame<T>> {
    var lines := Lines(raw);
    var data := DataOf(lines);
    if |data| == 0 then []
    else
      var parsed := parse(Join(data, "\n"));
      if parsed.None? then [] else [Frame(EventOf(lines), parsed.value)]
  }

  // ---------- the fields of a frame ----------

  // What a line gives for a field: all of it after the colon and at most one space, or nothing when the
  // line is the name alone.
  ghost predicate Gives(line: string, name: string, value: string) {
    || (line == name && value == "")
    || line == name + ": " + value
    || (line == name + ":" + value && !(" " <= value))
  }

  ghost predicate IsFieldName(name: string) { |name| > 0 && ':' !in name }

  lemma {:induction false} ColonAt(line: string, k: nat)
    requires k < |line| && line[k] == ':' && forall i :: 0 <= i < k ==> line[i] != ':'
    ensures IndexOfColon(line) == k
  {
    if IndexOfColon(line) < k {
      assert false;
    }
  }

  lemma {:induction false} NoColon(line: string)
    requires ':' !in line
    ensures IndexOfColon(line) == |line|
  {
    if IndexOfColon(line) < |line| {
      assert false;
    }
  }

  lemma {:induction false} NamedField(line: string, name: string, rest: string)
    requires IsFieldName(name) && line == name + ":" + rest
    ensures !Skipped(line) && FieldName(line) == name
    ensures FieldValue(line) == if " " <= rest then rest[1..] else rest
  {
    assert line[|name|] == ':' && forall i :: 0 <= i < |name| ==> line[i] == name[i];
    ColonAt(line, |name|);
    assert line[|name| + 1..] == rest;
  }

  // A line gives a value for the name exactly when it is read as that field with that value.
  lemma {:induction false} GivesField(line: string, name: string, value: string)
    requires IsFieldName(name)
    ensures Gives(line, name, value) <==> !Skipped(line) && FieldName(line) == name && FieldValue(line) == value
  {
    hide Skipped, FieldName, FieldValue;
    if Gives(line, name, value) {
      GivenField(line, name, value);
    }
    if !Skipped(line) && FieldName(line) == name && FieldValue(line) == value {
      FieldGiven(line, name);
    }
  }

  lemma {:induction false} GivenField(line: string, name: string, value: string)
    requires IsFieldName(name) && Gives(line, name, value)
    ensures !Skipped(line) && FieldName(line) == name && FieldValue(line) == value
  {
    if line == name && value == "" {
      NoColon(line);
    } else if line == name + ": " + value {
      assert line == name + ":" + (" " + value);
      NamedField(line, name, " " + value);
    } else {
      NamedField(line, name, value);
    }
  }

  lemma {:induction false} FieldGiven(line: string, name: string)
    requires !Skipped(line) && FieldName(line) == name
    ensures Gives(line, name, FieldValue(line))
  {
    var k := IndexOfColon(line);
    if k < |line| {
      assert line == line[..k] + ":" + line[k + 1..];
      if " " <= line[k + 1..] {
        assert line[k + 1..] == " " + line[k + 2..];
        assert line == name + ": " + line[k + 2..];
      }
    }
  }

  // The values that the lines give for a name, in order.
  ghost predicate Given(lines: seq<string>, name: string, values: seq<string>) {
    if |lines| == 0 then values == []
    else
      var front, last := lines[..|lines| - 1], lines[|lines| - 1];
      if exists value :: Gives(last, name, value) then
        |values| > 0 && Gives(last, name, values[|values| - 1]) && Given(front, name, values[..|values| - 1])
      else Given(front, name, values)
  }

  lemma {:induction false} DataIsGiven(lines: seq<string>)
    ensures Given(lines, "data", DataOf(lines))
  {
    hide Gives, Skipped, FieldName, FieldValue;
    if |lines| > 0 {
      var front, last := lines[..|lines| - 1], lines[|lines| - 1];
      DataIsGiven(front);
      assert DataOf(front) + [] == DataOf(front);
      forall value
        ensures Gives(last, "data", value)
            <==> !Skipped(last) && FieldName(last) == "data" && FieldValue(last) == value
      {
        GivesField(last, "data", value);
      }
    }
  }

  lemma {:induction false} EventIsGiven(lines: seq<string>, values: seq<string>)
    requires Given(lines, "event", values)
    ensures EventOf(lines) == if values == [] then "message" else values[|values| - 1]
  {
    hide Gives, Skipped, FieldName, FieldValue;
    if |lines| > 0 {
      var front, last := lines[..|lines| - 1], lines[|lines| - 1];
      forall value
        ensures Gives(last, "event", value)
            <==> !Skipped(last) && FieldName(last) == "event" && FieldValue(last) == value
      {
        GivesField(last, "event", value);
      }
      if !(exists value :: Gives(last, "event", value)) {
        assert !Gives(last, "event", FieldValue(last));
        EventIsGiven(front, values);
      }
    }
  }

  lemma {:induction false} SomethingGiven(lines: seq<string>, name: string) returns (values: seq<string>)
    ensures Given(lines, name, values)
  {
    hide Gives;
    values := [];
    if |lines| > 0 {
      var last := lines[|lines| - 1];
      values := SomethingGiven(lines[..|lines| - 1], name);
      if value :| Gives(last, name, value) {
        values := values + [value];
      }
    }
  }

  /**
   A frame is what its lines give: the last event name, "message" without one, and the parsed text of
   all data lines joined by line feeds. Without a data line, or when that text does not parse, the
   frame is dropped.
   */
  lemma {:induction false} FrameTells<T>(raw: string, parse: string -> Option<T>, events: seq<string>,
      data: seq<string>)
    requires Given(Lines(raw), "event", events) && Given(Lines(raw), "data", data)
    ensures FrameOf(raw, parse)
         == if data == [] || parse(Join(data, "\n")).None? then []
            else [Frame(if events == [] then "message" else events[|events| - 1], parse(Join(data, "\n")).value)]
  {
    hide Lines, DataOf, EventOf, Given;
    DataIsGiven(Lines(raw));
    GivenOnce(Lines(raw), "data", data, DataOf(Lines(raw)));
    EventIsGiven(Lines(raw), events);
  }

  lemma {:induction false} GivenOnce(lines: seq<string>, name: string, values: seq<string>, others: seq<string>)
    requires IsFieldName(name) && Given(lines, name, values) && Given(lines, name, others)
    ensures values == others
  {
    hide Gives;
    if |lines| > 0 {
      var front, last := lines[..|lines| - 1], lines[|lines| - 1];
      if exists value :: Gives(last, name, value) {
        GivenOnce(front, name, values[..|values| - 1], others[..|others| - 1]);
        GivesField(last, name, values[|values| - 1]);
        GivesField(last, name, others[|others| - 1]);
      } else {
        GivenOnce(front, name, values, others);
      }
    }
  }

  // ---------- the whole buffer ----------

  function Take<T>(buffer: string, parse: string -> Option<T>): Taken<T>
    decreases |buffer|
  {
    var i := FindSeparator(buffer);
    if i.None? then Taken([], buffer)
    else
      var rest := Take(buffer[i.value..][SeparatorLength(buffer[i.value..])..], parse);
      Taken(FrameOf(buffer[..i.value], parse) + rest.frames, rest.remainder)
  }

  method ParseFrame<T>(raw: string, parse: string -> Option<T>) returns (frames: seq<Frame<T>>)
    ensures frames == FrameOf(raw, parse)
  {
    var lines := Lines(raw);
    var event := "message";
    var data: seq<string> := [];
    for i := 0 to |lines|
      invariant event == EventOf(lines[..i]) && data == DataOf(lines[..i])
    {
      assert lines[..i + 1][..i] == lines[..i];
      var line := lines[i];
      if Skipped(line) {
        continue;
      }
      var colon := IndexOfColon(line);
      var field := if colon == |line| then line else line[..colon];
      var value := FieldValue(line);
      if field == "event" {
        event := value;
      } else if field == "data" {
        data := data + [value];
      }
    }
    assert lines[..|lines|] == lines;
    frames := [];
    if |data| > 0 {
      var parsed := parse(Join(data, "\n"));
      if parsed.Some? {
        frames := [Frame(event, parsed.value)];
      }
    }
  }

  method TakePortalSseFrames<T>(buffer: string, parse: string -> Option<T>) returns (r: Taken<T>)
    ensures r == Take(buffer, parse)
  {
    hide FrameOf, FindSeparator, SeparatorLength;
    var frames: seq<Frame<T>> := [];
    var remainder := buffer;
    while true
      invariant Take(buffer, parse) == Taken(frames + Take(remainder, parse).frames, Take(remainder, parse).remainder)
      decreases |remainder|
    {
      var i := FindSeparator(remainder);
      if i.None? {
        break;
      }
      var raw := remainder[..i.value];
      var before := frames;
      var more := ParseFrame(raw, parse);
      TakeStep(remainder, parse);
      remainder := remainder[i.value..][SeparatorLength(remainder[i.value..])..];
      frames := frames + more;
      assert before + (more + Take(remainder, parse).frames) == frames + Take(remainder, parse).frames;
    }
    return Taken(frames, remainder);
  }

  lemma {:induction false} TakeStep<T>(buffer: string, parse: string -> Option<T>)
    requires FindSeparator(buffer).Some?
    ensures var i := FindSeparator(buffer).value;
            var rest := buffer[i..][SeparatorLength(buffer[i..])..];
            && |rest| < |buffer|
            && Take(buffer, parse)
              == Taken(FrameOf(buffer[..i], parse) + Take(rest, parse).frames, Take(rest, parse).remainder)
  {
  }

  // ---------- chunking does not matter ----------

  // A separator that has arrived whole stays where it is and as long as it is.
  lemma {:induction false} SeparatorStays(x: string, y: string)
    requires SeparatorLength(x) > 0
    ensures SeparatorLength(x + y) == SeparatorLength(x)
  {
    var first := BreakLength(x);
    assert (x + y)[first..] == x[first..] + y;
    BreakStays(x, y);
    BreakStays(x[first..], y);
  }

  lemma {:induction false} BreakStays(x: string, y: string)
    requires BreakLength(x) > 0
    ensures BreakLength(x + y) == BreakLength(x)
  {
  }

  // A separator that is only completed by later text has nothing after it in the text so far.
  lemma {:induction false} CutSeparatorIsLast(x: string, y: string)
    requires |x| > 0 && SeparatorLength(x) == 0 && SeparatorLength(x + y) > 0
    ensures FindSeparator(x).None?
  {
    var s := x + y;
    var first := BreakLength(s);
    assert |x| <= 3;
    if |x| >= 2 {
      assert x[1] == s[1];
    }
    if |x| == 3 {
      assert x[2] == s[2];
    }
    ShortSearch(x);
  }

  lemma {:induction false} ShortSearch(x: string)
    requires 0 < |x| <= 3
    requires SeparatorLength(x) == 0 && (|x| >= 2 ==> SeparatorLength(x[1..]) == 0)
    ensures FindSeparator(x).None?
  {
    if |x| >= 2 {
      var t := x[1..];
      if |t| == 2 {
        assert FindSeparator(t[1..][1..]).None?;
        assert SeparatorLength(t[1..]) == 0;
      }
      assert FindSeparator(t).None?;
    }
  }

  lemma {:induction false} FindStays(x: string, y: string)
    requires FindSeparator(x).Some?
    ensures FindSeparator(x + y) == FindSeparator(x)
  {
    if SeparatorLength(x) > 0 {
      SeparatorStays(x, y);
    } else {
      if SeparatorLength(x + y) > 0 {
        CutSeparatorIsLast(x, y);
      } else {
        assert (x + y)[1..] == x[1..] + y;
        FindStays(x[1..], y);
      }
    }
  }

  // Cutting the text anywhere, also inside a separator, changes neither frames nor remainder.
  lemma {:induction false} TakeAppend<T>(x: string, y: string, parse: string -> Option<T>)
    ensures var first := Take(x, parse);
            var second := Take(first.remainder + y, parse);
            Take(x + y, parse) == Taken(first.frames + second.frames, second.remainder)
    decreases |x|
  {
    hide FrameOf, FindSeparator, SeparatorLength, Take;
    if FindSeparator(x).None? {
      NothingTaken(x, parse);
    } else {
      var i := FindSeparator(x).value;
      FindStays(x, y);
      SeparatorStays(x[i..], y);
      TakeStep(x, parse);
      TakeStep(x + y, parse);
      var rest := x[i..][SeparatorLength(x[i..])..];
      assert (x + y)[i..] == x[i..] + y;
      assert (x[i..] + y)[SeparatorLength(x[i..])..] == rest + y;
      assert (x + y)[..i] == x[..i];
      TakeAppend(rest, y, parse);
    }
  }

  lemma {:induction false} NothingTaken<T>(x: string, parse: string -> Option<T>)
    requires FindSeparator(x).None?
    ensures Take(x, parse) == Taken([], x)
  {
  }

  function Flatten(chunks: seq<string>): string {
    if |chunks| == 0 then "" else Flatten(chunks[..|chunks| - 1]) + chunks[|chunks| - 1]
  }

  const BUFFER_LIMIT: nat := 65536

  // What is left over from the chunks before i and chunk i together exceed the reader's buffer.
  ghost predicate TooLong<T>(chunks: seq<string>, i: nat, parse: string -> Option<T>)
    requires i < |chunks|
  {
    |Take(Flatten(chunks[..i]), parse).remainder| + |chunks[i]| > 65536
  }

  // The reading loop of the portal: every chunk is appended to what was left over. It stops at the
  // first chunk that makes the buffer too long, having read the chunks before it.
  method ReadStream<T>(chunks: seq<string>, parse: string -> Option<T>) returns (r: Taken<T>, read: nat)
    ensures read <= |chunks| && r == Take(Flatten(chunks[..read]), parse)
    ensures forall i :: 0 <= i < read ==> !TooLong(chunks, i, parse)
    ensures read < |chunks| ==> TooLong(chunks, read, parse)
    ensures read == |chunks| ==> r == Take(Flatten(chunks), parse)
  {
    hide Take, Flatten;
    r := TakePortalSseFrames("", parse);
    NothingRead(chunks);
    read := 0;
    while read < |chunks|
      invariant read <= |chunks| && r == Take(Flatten(chunks[..read]), parse)
      invariant forall i :: 0 <= i < read ==> !TooLong(chunks, i, parse)
    {
      var buffer := r.remainder + chunks[read];
      if |buffer| > BUFFER_LIMIT {
        return;
      }
      TakeAppend(Flatten(chunks[..read]), chunks[read], parse);
      OneMoreChunk(chunks, read);
      var more := TakePortalSseFrames(buffer, parse);
      r := Taken(r.frames + more.frames, more.remainder);
      read := read + 1;
    }
    assert chunks[..|chunks|] == chunks;
  }

  lemma {:induction false} NothingRead(chunks: seq<string>)
    ensures Flatten(chunks[..0]) == ""
  {
  }

  lemma {:induction false} OneMoreChunk(chunks: seq<string>, i: nat)
    requires i < |chunks|
    ensures Flatten(chunks[..i + 1]) == Flatten(chunks[..i]) + chunks[i]
  {
    assert chunks[..i + 1][..i] == chunks[..i];
  }

  // ---------- reading back what a server writes ----------

  predicate LineEnd(end: string) { end == "\n" || end == "\r\n" }

  // A line of a frame: not empty, and without line ends of its own.
  predicate Plain(line: string) { |line| > 0 && NoBreaks(line) }

  predicate NoBreaks(s: string) { forall i :: 0 <= i < |s| ==> s[i] != '\n' && s[i] != '\r' }

  ghost predicate AllPlain(lines: seq<string>) { forall l :: l in lines ==> Plain(l) }

  lemma {:induction false} PlainStart(s: string)
    requires |s| > 0 && s[0] != '\n' && s[0] != '\r'
    ensures BreakLength(s) == 0 && SeparatorLength(s) == 0
  {
  }

  function Shifted(r: Option<nat>, n: nat): Option<nat> { if r.None? then None else Some(r.value + n) }

  lemma {:induction false} NoBreakBefore(s: string, n: nat)
    requires n <= |s| && NoBreaks(s[..n])
    ensures FindBreak(s) == Shifted(FindBreak(s[n..]), n)
    ensures FindSeparator(s) == Shifted(FindSeparator(s[n..]), n)
  {
    hide BreakLength, SeparatorLength;
    if n == 0 {
      assert s[0..] == s;
    } else {
      assert s[0] == s[..n][0];
      PlainStart(s);
      assert s[1..][..n - 1] == s[..n][1..];
      assert s[1..][n - 1..] == s[n..];
      NoBreakBefore(s[1..], n - 1);
    }
  }

  lemma {:induction false} EndFound(end: string, rest: string)
    requires LineEnd(end)
    ensures BreakLength(end + rest) == |end| && FindBreak(end + rest) == Some(0)
    ensures (end + rest)[|end|..] == rest
  {
    var s := end + rest;
    assert s[0] == end[0];
    assert end <= s;
  }

  // Splitting joined lines gives the lines back.
  lemma {:induction false} LinesOfJoin(lines: seq<string>, end: string)
    requires LineEnd(end) && |lines| > 0 && AllPlain(lines)
    ensures Lines(Join(lines, end)) == lines
  {
    hide BreakLength, FindBreak;
    var head := lines[0];
    assert head in lines;
    if |lines| == 1 {
      OneLine(head);
    } else {
      var tail := Join(lines[1..], end);
      var s := Join(lines, end);
      assert s == head + (end + tail);
      assert s[..|head|] == head && s[|head|..] == end + tail;
      NoBreakBefore(s, |head|);
      EndFound(end, tail);
      assert AllPlain(lines[1..]);
      LinesOfJoin(lines[1..], end);
      assert [head] + lines[1..] == lines;
    }
  }

  lemma {:induction false} OneLine(line: string)
    requires NoBreaks(line)
    ensures Lines(line) == [line]
  {
    assert line[..|line|] == line && line[|line|..] == "";
    NoBreakBefore(line, |line|);
  }

  // The separator after joined lines is the first one.
  lemma {:induction false} SeparatorOfJoin(lines: seq<string>, end: string, rest: string)
    requires LineEnd(end) && |lines| > 0 && AllPlain(lines)
    ensures var s := Join(lines, end) + (end + (end + rest));
            FindSeparator(s) == Some(|Join(lines, end)|)
  {
    hide BreakLength, FindBreak, FindSeparator, SeparatorLength;
    var head, after := lines[0], end + (end + rest);
    var s := Join(lines, end) + after;
    assert head in lines;
    if |lines| == 1 {
      assert s[..|head|] == head && s[|head|..] == after;
      NoBreakBefore(s, |head|);
      SeparatorHere(end, rest);
    } else {
      var tail := Join(lines[1..], end);
      assert AllPlain(lines[1..]);
      assert s == head + (end + (tail + after));
      assert s[..|head|] == head && s[|head|..] == end + (tail + after);
      NoBreakBefore(s, |head|);
      JoinStarts(lines[1..], end);
      SingleEnd(end, tail + after);
      SeparatorOfJoin(lines[1..], end, rest);
    }
  }

  lemma {:induction false} JoinStarts(lines: seq<string>, end: string)
    requires |lines| > 0 && AllPlain(lines)
    ensures |Join(lines, end)| > 0 && NoBreaks(Join(lines, end)[..1])
  {
    assert lines[0] in lines;
    assert Join(lines, end)[0] == lines[0][0];
  }

  lemma {:induction false} SeparatorHere(end: string, rest: string)
    requires LineEnd(end)
    ensures FindSeparator(end + (end + rest)) == Some(0) && SeparatorLength(end + (end + rest)) == 2 * |end|
  {
    hide BreakLength;
    EndFound(end, end + rest);
    EndFound(end, rest);
  }

  lemma {:induction false} NotASeparator(end: string, s: string)
    requires LineEnd(end) && |s| > 0 && NoBreaks(s[..1])
    ensures SeparatorLength(end + s) == 0
  {
    assert s[0] == s[..1][0];
    assert BreakLength(s) == 0;
    assert (end + s)[|end|..] == s;
  }

  lemma {:induction false} NextSeparator(c: char, s: string)
    requires SeparatorLength([c] + s) == 0
    ensures FindSeparator([c] + s) == Shifted(FindSeparator(s), 1)
  {
    hide SeparatorLength;
    assert ([c] + s)[1..] == s;
  }

  lemma {:induction false} SingleEnd(end: string, s: string)
    requires LineEnd(end) && |s| > 0 && NoBreaks(s[..1])
    ensures FindSeparator(end + s) == Shifted(FindSeparator(s), |end|)
  {
    hide SeparatorLength, FindSeparator, NoBreaks;
    NotASeparator("\n", s);
    NextSeparator('\n', s);
    if end == "\r\n" {
      NotASeparator(end, s);
      assert end + s == ['\r'] + ("\n" + s);
      NextSeparator('\r', "\n" + s);
    }
  }

  // A frame as the event-stream format writes it: the event name, then one line for each data line.
  function DataLines(data: seq<string>): seq<string> {
    if |data| == 0 then [] else DataLines(data[..|data| - 1]) + ["data: " + data[|data| - 1]]
  }

  function FrameLines(event: string, data: seq<string>): seq<string> { ["event: " + event] + DataLines(data) }

  function Written(event: string, data: seq<string>, end: string): string {
    Join(FrameLines(event, data), end) + end + end
  }

  lemma {:induction false} FieldReadsBack(name: string, v: string)
    requires forall i :: 0 <= i < |name| ==> name[i] != ':'
    ensures FieldName(name + ": " + v) == name && FieldValue(name + ": " + v) == v
  {
    var line := name + ": " + v;
    ColonAfter(line, |name|);
    assert line[|name| + 2..] == v;
  }

  lemma {:induction false} ColonAfter(line: string, k: nat)
    requires k < |line| && line[k] == ':' && forall i :: 0 <= i < k ==> line[i] != ':'
    ensures IndexOfColon(line) == k
  {
  }

  lemma {:induction false} EventLine(event: string)
    ensures FieldName("event: " + event) == "event" && FieldValue("event: " + event) == event
    ensures !Skipped("event: " + event)
  {
    FieldReadsBack("event", event);
    assert "event" + ": " + event == "event: " + event;
  }

  lemma {:induction false} DataLine(d: string)
    ensures FieldName("data: " + d) == "data" && FieldValue("data: " + d) == d
    ensures !Skipped("data: " + d)
  {
    FieldReadsBack("data", d);
    assert "data" + ": " + d == "data: " + d;
  }

  lemma {:induction false} DataReadsBack(event: string, data: seq<string>)
    ensures DataOf(FrameLines(event, data)) == data && EventOf(FrameLines(event, data)) == event
  {
    hide FieldName, FieldValue, Skipped;
    var lines := FrameLines(event, data);
    EventLine(event);
    if |data| == 0 {
      assert lines == ["event: " + event];
      assert lines[..|lines| - 1] == [];
    } else {
      var front, last := data[..|data| - 1], data[|data| - 1];
      DataLine(last);
      assert lines[..|lines| - 1] == FrameLines(event, front);
      assert lines[|lines| - 1] == "data: " + last;
      DataReadsBack(event, front);
      assert front + [last] == data;
    }
  }

  lemma {:induction false} WrittenIsPlain(event: string, data: seq<string>)
    requires NoBreaks(event) && forall d :: d in data ==> NoBreaks(d)
    ensures AllPlain(FrameLines(event, data))
  {
    PlainPrefix("event: ", event);
    if |data| == 0 {
      assert FrameLines(event, data) == ["event: " + event];
    } else {
      var front, last := data[..|data| - 1], data[|data| - 1];
      assert last in data;
      PlainPrefix("data: ", last);
      WrittenIsPlain(event, front);
      assert FrameLines(event, data) == FrameLines(event, front) + ["data: " + last];
    }
  }

  lemma {:induction false} PlainPrefix(name: string, v: string)
    requires Plain(name) && NoBreaks(v)
    ensures Plain(name + v)
  {
  }

  // A written frame is read back as one frame, and reading goes on right after it. Both line ends work,
  // and the data lines come back joined by line feeds.
  lemma {:induction false} FrameReadsBack<T>(event: string, data: seq<string>, end: string, rest: string,
      parse: string -> Option<T>)
    requires LineEnd(end) && NoBreaks(event) && (forall d :: d in data ==> NoBreaks(d))
    requires |data| > 0 && parse(Join(data, "\n")).Some?
    ensures Take(Written(event, data, end) + rest, parse)
            == Taken([Frame(event, parse(Join(data, "\n")).value)] + Take(rest, parse).frames,
                     Take(rest, parse).remainder)
  {
    hide Take, Join, FindSeparator, SeparatorLength, Lines, DataOf, EventOf, FrameLines, NoBreaks;
    var lines := FrameLines(event, data);
    var body := Join(lines, end);
    var s := Written(event, data, end) + rest;
    assert s == body + (end + (end + rest));
    WrittenIsPlain(event, data);
    FrameHasLines(event, data);
    SeparatorOfJoin(lines, end, rest);
    assert s[|body|..] == end + (end + rest) && s[..|body|] == body;
    SeparatorHere(end, rest);
    assert (end + (end + rest))[2 * |end|..] == rest;
    LinesOfJoin(lines, end);
    DataReadsBack(event, data);
    TakeStep(s, parse);
  }

  lemma {:induction false} FrameHasLines(event: string, data: seq<string>)
    ensures |FrameLines(event, data)| > 0
  {
  }
}
