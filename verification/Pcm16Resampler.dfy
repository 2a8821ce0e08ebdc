/**
 The streaming linear resampler for 16-bit PCM. Positions are the exact rationals k * S / T for the
 source rate S and the target rate T; chunks are byte buffers of little-endian samples.
 */
module Pcm16Resampler {
  import opened Bytes
  import opened Wrappers

  newtype sample = x: int | -32768 <= x < 32768

  type Rate = r: int | r > 0 witness 1

  datatype Error = AlreadyFinished | OddLength | Unavailable

  // ---------- the sample codec ----------

  function ReadInt16LE(low: byte, high: byte): sample {
    var u := low as int + 256 * high as int;
    (if u < 32768 then u else u - 65536) as sample
  }

  function WriteInt16LE(v: sample): (r: (byte, byte)) {
    var u := if v >= 0 then v as int else v as int + 65536;
    ((u % 256) as byte, (u / 256) as byte)
  }

  function Decode(pcm: seq<byte>): seq<sample>
    requires |pcm| % 2 == 0
  {
    seq(|pcm| / 2, i requires 0 <= i < |pcm| / 2 => ReadInt16LE(pcm[2 * i], pcm[2 * i + 1]))
  }

  function Encode(samples: seq<sample>): seq<byte> {
    seq(2 * |samples|, i requires 0 <= i < 2 * |samples| =>
      var (low, high) := WriteInt16LE(samples[i / 2]);
      if i % 2 == 0 then low else high)
  }

  lemma {:induction false} DecodeEncode(samples: seq<sample>)
    ensures Decode(Encode(samples)) == samples
  {
  }

  /** A sample is the low byte plus 256 times the high byte, in two's complement. */
  lemma {:induction false} DecodedSample(pcm: seq<byte>, i: nat)
    requires |pcm| % 2 == 0 && 2 * i + 1 < |pcm|
    ensures |Decode(pcm)| == |pcm| / 2
    ensures var v, u := Decode(pcm)[i] as int, pcm[2 * i] as int + 256 * pcm[2 * i + 1] as int;
            (v - u) % 65536 == 0 && -32768 <= v < 32768
  {
  }

  lemma {:induction false} PairSplits(low: int, high: int)
    requires 0 <= low < 256
    ensures (low + 256 * high) % 256 == low && (low + 256 * high) / 256 == high
  {
  }

  lemma {:induction false} EncodeDecode(pcm: seq<byte>)
    requires |pcm| % 2 == 0
    ensures Encode(Decode(pcm)) == pcm
  {
    forall i | 0 <= i < |pcm|
      ensures Encode(Decode(pcm))[i] == pcm[i]
    {
      PairSplits(pcm[i / 2 * 2] as int, pcm[i / 2 * 2 + 1] as int);
    }
  }

  // ---------- interpolation ----------

  // Math.round(p / q): the nearest integer, halves upwards.
  function Round(p: int, q: Rate): int { (2 * p + q) / (2 * q) }

  function Clamp(v: int): sample {
    if v > 32767 then 32767 else if v < -32768 then -32768 else v as sample
  }

  // Between two samples at the fraction part / whole.
  function Interpolate(lower: sample, upper: sample, part: int, whole: Rate): sample {
    Clamp(Round(lower as int * whole + (upper as int - lower as int) * part, whole))
  }

  // The clamp never acts, and the result lies between the two samples.
  lemma {:induction false} InterpolateBetween(lower: sample, upper: sample, part: int, whole: Rate)
    requires 0 <= part < whole
    ensures Interpolate(lower, upper, part, whole) as int
            == Round(lower as int * whole + (upper as int - lower as int) * part, whole)
    ensures lower <= upper ==> lower <= Interpolate(lower, upper, part, whole) <= upper
    ensures upper <= lower ==> upper <= Interpolate(lower, upper, part, whole) <= lower
  {
    hide Round;
    var a, b := lower as int, upper as int;
    var p := a * whole + (b - a) * part;
    if a <= b {
      Share(b - a, part, whole);
    } else {
      Share(a - b, part, whole);
      assert (b - a) * part == -((a - b) * part);
      assert (a - b) * whole == a * whole - b * whole;
    }
    assert (b - a) * whole == b * whole - a * whole;
    if a <= b {
      RoundBetween(p, a, b, whole);
    } else {
      RoundBetween(p, b, a, whole);
    }
  }

  lemma {:induction false} Share(n: nat, part: int, whole: Rate)
    requires 0 <= part < whole
    ensures 0 <= n * part <= n * whole
  {
  }

  // The quotient is the greatest a with a * d <= x.
  lemma {:induction false} Quotient(x: int, d: Rate, a: int)
    ensures a <= x / d <==> a * d <= x
  {
    var q, r := x / d, x % d;
    assert x == q * d + r;
    if a <= q {
      Monotone(a, q, d);
    } else {
      Monotone(q + 1, a, d);
      assert (q + 1) * d == q * d + d;
    }
  }

  lemma {:induction false} Monotone(a: int, b: int, d: nat)
    requires a <= b
    ensures a * d <= b * d
  {
  }

  lemma {:induction false} RoundBetween(p: int, a: int, b: int, q: Rate)
    requires a * q <= p
    requires p <= b * q
    ensures a <= Round(p, q) <= b
  {
    Quotient(2 * p + q, 2 * q, a);
    Quotient(2 * p + q, 2 * q, b + 1);
    assert a * (2 * q) == 2 * (a * q);
    assert (b + 1) * (2 * q) == 2 * (b * q) + 2 * q;
  }

  // ---------- one-shot resampling ----------

  // Source and target rate: output sample k lies at source position k * from / to.
  datatype Rates = Rates(from: Rate, to: Rate) {
    function Ticks(k: nat): nat { k * from }

    function Lower(k: nat): nat { Ticks(k) / to }

    function Part(k: nat): nat { Ticks(k) % to }

    function Upper(k: nat): nat { if Part(k) == 0 then Lower(k) else Lower(k) + 1 }

    // How many output samples lie within the first n source samples.
    function Ready(n: nat): nat { if n == 0 then 0 else Span(n - 1) / from + 1 }

    function Span(n: nat): nat { n * to }

    // How many output samples n source samples make.
    function Total(n: nat): nat {
      if n == 0 then 0
      else
        var rounded := Round(n * to, from);
        if rounded > Ready(n) then rounded else Ready(n)
    }

    // Rounded linear interpolation, the last sample held at the end.
    function Value(x: seq<sample>, k: nat): sample
      requires |x| > 0
    {
      Interpolate(x[AtMost(Lower(k), |x| - 1)], x[AtMost(Upper(k), |x| - 1)], Part(k), to)
    }

    function Output(x: seq<sample>, count: nat): seq<sample>
      requires |x| > 0 || count == 0
    {
      if count == 0 then [] else Output(x, count - 1) + [Value(x, count - 1)]
    }

    // The whole input at once.
    function OneShot(x: seq<sample>): seq<sample> { Output(x, Total(|x|)) }
  }

  function AtMost(a: nat, b: nat): nat { if a < b then a else b }

  lemma {:induction false} UpperWithin(r: Rates, k: nat, n: nat)
    ensures r.Upper(k) <= n <==> r.Ticks(k) <= n * r.to
  {
    var t := r.Ticks(k);
    assert t == r.Lower(k) * r.to + r.Part(k);
    Quotient(t, r.to, n + 1);
    assert (n + 1) * r.to == n * r.to + r.to;
    if r.Lower(k) < n {
      Monotone(r.Lower(k) + 1, n, r.to);
      assert (r.Lower(k) + 1) * r.to == r.Lower(k) * r.to + r.to;
    }
  }

  // Ready counts the positions that do not look beyond the last sample.
  lemma {:induction false} ReadyIsReady(r: Rates, n: nat, k: nat)
    requires n > 0
    ensures r.Upper(k) <= n - 1 <==> k < r.Ready(n)
  {
    hide Rates.Upper;
    UpperWithin(r, k, n - 1);
    Quotient((n - 1) * r.to, r.from, k);
  }

  lemma {:induction false} Settled(r: Rates, x: seq<sample>, y: seq<sample>, k: nat)
    requires |x| > 0 && r.Upper(k) <= |x| - 1
    ensures r.Value(x, k) == r.Value(x + y, k)
  {
    hide Interpolate;
  }

  lemma {:induction false} OutputAt(r: Rates, x: seq<sample>, count: nat)
    requires |x| > 0
    ensures |r.Output(x, count)| == count
    ensures forall k :: 0 <= k < count ==> r.Output(x, count)[k] == r.Value(x, k)
  {
    hide Rates.Value;
    if count > 0 {
      OutputAt(r, x, count - 1);
    }
  }

  lemma {:induction false} ReadyGrows(r: Rates, m: nat, n: nat)
    requires m <= n
    ensures r.Ready(m) <= r.Ready(n)
  {
    hide Rates.Upper;
    if m > 0 {
      ReadyIsReady(r, m, r.Ready(m) - 1);
      ReadyIsReady(r, n, r.Ready(m) - 1);
    }
  }

  // The output so far does not change when more input arrives.
  lemma {:induction false} OutputSettled(r: Rates, x: seq<sample>, y: seq<sample>, count: nat)
    requires |x + y| > 0 && count <= r.Ready(|x|)
    ensures r.Output(x + y, count) == r.Output(x, count)
    decreases count
  {
    hide Rates.Value, Rates.Upper;
    if count > 0 {
      OutputSettled(r, x, y, count - 1);
      ReadyIsReady(r, |x|, count - 1);
      Settled(r, x, y, count - 1);
    }
  }

  // A position that was not ready before looks back at most at the last sample of then.
  lemma {:induction false} ContextKept(r: Rates, n: nat, k: nat)
    requires n > 0 && k >= r.Ready(n)
    ensures r.Lower(k) >= n - 1
  {
    hide Rates.Ready, Rates.Lower, Rates.Part;
    ReadyIsReady(r, n, k);
    UpperIsCeiling(r, k);
  }

  lemma {:induction false} UpperIsCeiling(r: Rates, k: nat)
    ensures r.Lower(k) <= r.Upper(k) <= r.Lower(k) + 1
  {
  }

  lemma {:induction false} TicksBound(r: Rates, k: nat, n: nat)
    requires r.Upper(k) <= n
    ensures r.Ticks(k) <= n * r.to && r.Ticks(k + 1) == r.Ticks(k) + r.from
  {
    UpperWithin(r, k, n);
    assert (k + 1) * r.from == k * r.from + r.from;
  }

  // ---------- the stream ----------

  function At(samples: seq<sample>, index: int): Option<sample> {
    if 0 <= index < |samples| then Some(samples[index]) else None
  }

  class Resampler {
    const rates: Rates
    var sourceSampleCount: nat
    var outputSampleIndex: nat
    var previousSample: Option<sample>
    var finished: bool
    ghost var fed: seq<sample>
    ghost var emitted: seq<sample>

    ghost predicate Valid()
      reads this
    {
      && sourceSampleCount == |fed|
      && previousSample == (if |fed| == 0 then None else Some(fed[|fed| - 1]))
      && outputSampleIndex == (if finished then rates.Total(|fed|) else rates.Ready(|fed|))
      && emitted == rates.Output(fed, outputSampleIndex)
    }

    constructor (rates: Rates)
      ensures Valid() && this.rates == rates && !finished && fed == [] && emitted == []
    {
      this.rates := rates;
      sourceSampleCount, outputSampleIndex, previousSample, finished := 0, 0, None, false;
      fed, emitted := [], [];
    }

    method Push(pcm: seq<byte>) returns (r: Result<seq<byte>, Error>)
      requires Valid()
      modifies this
      ensures Valid()
      ensures r.Success? <==> !old(finished) && |pcm| % 2 == 0
      ensures r.Failure? ==> r.error == (if old(finished) then AlreadyFinished else OddLength)
      ensures r.Failure? ==> fed == old(fed) && emitted == old(emitted) && finished == old(finished)
      ensures r.Success? ==> !finished && fed == old(fed) + Decode(pcm)
      ensures r.Success? ==> old(emitted) <= emitted && r.value == Encode(emitted[|old(emitted)|..])
    {
      hide Decode, Encode, Rates.Value, Rates.Upper, Rates.Lower, Rates.Part, Rates.Ready, Rates.Ticks, Rates.Total;
      if finished {
        return Failure(AlreadyFinished);
      }
      if |pcm| % 2 != 0 {
        return Failure(OddLength);
      }
      if |pcm| == 0 {
        NothingDecoded(pcm);
        assert emitted[|emitted|..] == [];
        return Success([]);
      }
      var input := Decode(pcm);
      DecodedLength(pcm);
      var baseIndex := sourceSampleCount - (if previousSample.None? then 0 else 1);
      var samples := if previousSample.None? then input else [previousSample.value] + input;
      OutputSettled(rates, fed, input, outputSampleIndex);
      NothingReady(rates);
      ReadyGrows(rates, |fed|, |fed| + |input|);
      ghost var before := |fed|;
      fed := fed + input;
      sourceSampleCount := sourceSampleCount + |input|;
      assert samples == fed[baseIndex..];
      var output := TakeReady(samples, baseIndex, sourceSampleCount - 1, before);
      previousSample := Some(input[|input| - 1]);
      assert (emitted + output)[|emitted|..] == output;
      emitted := emitted + output;
      return Success(Encode(output));
    }

    // The loop of Push: every position that the samples at hand reach. before counts the samples
    // that had been fed when the current positions became ready.
    method TakeReady(samples: seq<sample>, baseIndex: nat, lastIndex: nat, ghost before: nat)
      returns (output: seq<sample>)
      requires |fed| == lastIndex + 1 && baseIndex <= lastIndex && samples == fed[baseIndex..]
      requires baseIndex == (if before == 0 then 0 else before - 1)
      requires rates.Ready(before) <= outputSampleIndex <= rates.Ready(|fed|)
      requires emitted == rates.Output(fed, outputSampleIndex)
      modifies this`outputSampleIndex
      ensures outputSampleIndex == rates.Ready(|fed|)
      ensures emitted + output == rates.Output(fed, outputSampleIndex)
    {
      hide Rates.Value, Rates.Upper, Rates.Lower, Rates.Part, Rates.Ready, Rates.Ticks, Interpolate;
      output := [];
      while rates.Upper(outputSampleIndex) <= lastIndex
        invariant rates.Ready(before) <= outputSampleIndex <= rates.Ready(|fed|)
        invariant emitted + output == rates.Output(fed, outputSampleIndex)
        modifies this`outputSampleIndex
        decreases lastIndex * rates.to - rates.Ticks(outputSampleIndex)
      {
        ReadyIsReady(rates, |fed|, outputSampleIndex);
        TicksBound(rates, outputSampleIndex, lastIndex);
        ValueAt(rates, fed, outputSampleIndex);
        if before > 0 {
          ContextKept(rates, before, outputSampleIndex);
        }
        // Where either sample is undefined the source throws.
        var lower := At(samples, rates.Lower(outputSampleIndex) - baseIndex);
        var upper := At(samples, rates.Upper(outputSampleIndex) - baseIndex);
        assert lower.Some? && upper.Some?;
        output := output + [Interpolate(lower.value, upper.value, rates.Part(outputSampleIndex), rates.to)];
        outputSampleIndex := outputSampleIndex + 1;
      }
      ReadyIsReady(rates, |fed|, outputSampleIndex);
    }

    // Only the last sample is still at hand when the stream ends; for any other index the source throws.
    function SampleAtEnd(index: int): Result<sample, Error>
      reads this
    {
      if index == sourceSampleCount - 1 && previousSample.Some? then Success(previousSample.value)
      else Failure(Unavailable)
    }

    // Never fails; a second call returns nothing more.
    method Finish() returns (pcm: seq<byte>)
      requires Valid()
      modifies this
      ensures Valid() && finished && fed == old(fed)
      ensures old(emitted) <= emitted && pcm == Encode(emitted[|old(emitted)|..])
      ensures old(finished) ==> emitted == old(emitted) && pcm == []
    {
      hide Encode, Rates.Value, Rates.Upper, Rates.Lower, Rates.Part, Rates.Ready, Rates.Ticks, Interpolate, Round;
      assert emitted[|emitted|..] == [];
      NothingReady(rates);
      NothingDecoded([]);
      if finished {
        return [];
      }
      finished := true;
      if sourceSampleCount == 0 || previousSample.None? {
        return [];
      }
      var expectedOutputCount := Round(sourceSampleCount * rates.to, rates.from);
      var output: seq<sample> := [];
      while outputSampleIndex < expectedOutputCount
        invariant rates.Ready(|fed|) <= outputSampleIndex
        invariant rates.Ready(|fed|) < outputSampleIndex ==> outputSampleIndex <= expectedOutputCount
        invariant emitted + output == rates.Output(fed, outputSampleIndex)
        modifies this`outputSampleIndex
      {
        ContextKept(rates, |fed|, outputSampleIndex);
        UpperIsCeiling(rates, outputSampleIndex);
        HeldValue(rates, fed, outputSampleIndex);
        var lowerIndex := AtMost(rates.Lower(outputSampleIndex), sourceSampleCount - 1);
        var upperIndex := AtMost(rates.Upper(outputSampleIndex), sourceSampleCount - 1);
        var lower := SampleAtEnd(lowerIndex);
        var upper := SampleAtEnd(upperIndex);
        assert lower.Success? && upper.Success?;
        output := output + [Interpolate(lower.value, upper.value, rates.Part(outputSampleIndex), rates.to)];
        outputSampleIndex := outputSampleIndex + 1;
      }
      assert (emitted + output)[|emitted|..] == output;
      emitted := emitted + output;
      return Encode(output);
    }
  }

  lemma {:induction false} HeldValue(r: Rates, x: seq<sample>, k: nat)
    requires |x| > 0 && r.Lower(k) >= |x| - 1
    ensures r.Value(x, k) == Interpolate(x[|x| - 1], x[|x| - 1], r.Part(k), r.to)
  {
    hide Interpolate;
  }

  method Create(sourceRateHz: int, targetRateHz: int) returns (r: Option<Resampler>)
    ensures r.Some? <==> sourceRateHz > 0 && targetRateHz > 0
    ensures r.Some? ==>
      && fresh(r.value) && r.value.Valid() && r.value.rates == Rates(sourceRateHz, targetRateHz)
      && !r.value.finished && r.value.fed == [] && r.value.emitted == []
  {
    if sourceRateHz <= 0 || targetRateHz <= 0 {
      return None;
    }
    var resampler := new Resampler(Rates(sourceRateHz, targetRateHz));
    return Some(resampler);
  }

  // ---------- streaming equals one-shot ----------

  function Flatten<T>(parts: seq<seq<T>>): seq<T> {
    if |parts| == 0 then [] else Flatten(parts[..|parts| - 1]) + parts[|parts| - 1]
  }

  lemma {:induction false} FlattenEven(chunks: seq<seq<byte>>)
    requires forall c :: c in chunks ==> |c| % 2 == 0
    ensures |Flatten(chunks)| % 2 == 0
  {
    if |chunks| > 0 {
      FlattenEven(chunks[..|chunks| - 1]);
    }
  }

  lemma {:induction false} DecodeAppend(a: seq<byte>, b: seq<byte>)
    requires |a| % 2 == 0 && |b| % 2 == 0
    ensures Decode(a + b) == Decode(a) + Decode(b)
  {
    hide ReadInt16LE;
    var n := |a| / 2;
    forall i | 0 <= i < |Decode(a + b)|
      ensures Decode(a + b)[i] == (Decode(a) + Decode(b))[i]
    {
      if i < n {
        assert (a + b)[2 * i] == a[2 * i];
      } else {
        assert (a + b)[2 * i] == b[2 * (i - n)] && (a + b)[2 * i + 1] == b[2 * (i - n) + 1];
      }
    }
  }

  lemma {:induction false} EncodeAppend(x: seq<sample>, y: seq<sample>)
    ensures Encode(x + y) == Encode(x) + Encode(y)
  {
    hide WriteInt16LE;
    var n := 2 * |x|;
    forall i | 0 <= i < |Encode(x + y)|
      ensures Encode(x + y)[i] == (Encode(x) + Encode(y))[i]
    {
      if i >= n {
        assert (x + y)[i / 2] == y[(i - n) / 2];
      }
    }
  }

  lemma {:induction false} EncodeGrown(x: seq<sample>, y: seq<sample>)
    requires x <= y
    ensures Encode(y) == Encode(x) + Encode(y[|x|..])
  {
    hide Encode;
    EncodeAppend(x, y[|x|..]);
    assert x + y[|x|..] == y;
  }

  lemma {:induction false} FlattenStep(chunks: seq<seq<byte>>, i: nat)
    requires i < |chunks| && forall c :: c in chunks ==> |c| % 2 == 0
    ensures |Flatten(chunks[..i])| % 2 == 0 && |Flatten(chunks[..i + 1])| % 2 == 0 && |chunks[i]| % 2 == 0
    ensures Decode(Flatten(chunks[..i + 1])) == Decode(Flatten(chunks[..i])) + Decode(chunks[i])
  {
    hide Decode;
    assert chunks[i] in chunks && chunks[..i + 1][..i] == chunks[..i];
    FlattenEven(chunks[..i]);
    FlattenEven(chunks[..i + 1]);
    DecodeAppend(Flatten(chunks[..i]), chunks[i]);
  }

  lemma {:induction false} AllEmitted(resampler: Resampler)
    requires resampler.Valid() && resampler.finished
    ensures resampler.emitted == resampler.rates.OneShot(resampler.fed)
  {
  }

  // Whatever the chunking, the concatenated answers are the one-shot resampling of the whole input.
  method Stream(rates: Rates, chunks: seq<seq<byte>>) returns (pcm: seq<byte>)
    requires forall c :: c in chunks ==> |c| % 2 == 0
    ensures |Flatten(chunks)| % 2 == 0
    ensures pcm == Encode(rates.OneShot(Decode(Flatten(chunks))))
  {
    hide Encode, Decode, Flatten, Resampler.Valid, Rates.OneShot;
    var resampler := new Resampler(rates);
    pcm := [];
    NothingFlattened();
    for i := 0 to |chunks|
      invariant resampler.Valid() && resampler.rates == rates && !resampler.finished
      invariant |Flatten(chunks[..i])| % 2 == 0 && resampler.fed == Decode(Flatten(chunks[..i]))
      invariant pcm == Encode(resampler.emitted)
    {
      FlattenStep(chunks, i);
      ghost var before := resampler.emitted;
      var r := resampler.Push(chunks[i]);
      EncodeGrown(before, resampler.emitted);
      pcm := pcm + r.value;
    }
    assert chunks[..|chunks|] == chunks;
    ghost var before := resampler.emitted;
    var tail := resampler.Finish();
    EncodeGrown(before, resampler.emitted);
    AllEmitted(resampler);
    pcm := pcm + tail;
  }

  lemma {:induction false} NothingFlattened()
    ensures Flatten<byte>([]) == [] && Decode([]) == [] && Encode([]) == []
  {
  }

  // ---------- how much comes out ----------

  lemma {:induction false} ReadyLength(r: Rates, n: nat)
    requires n > 0
    ensures r.from * r.Ready(n) <= (n - 1) * r.to + r.from < r.from * r.Ready(n) + r.from
  {
    var t := (n - 1) * r.to;
    assert t == r.from * (t / r.from) + t % r.from;
    assert r.from * (t / r.from + 1) == r.from * (t / r.from) + r.from;
  }

  lemma {:induction false} RoundLength(p: int, q: Rate)
    ensures 2 * p - q < 2 * (q * Round(p, q)) <= 2 * p + q
  {
    var t := 2 * p + q;
    assert t == 2 * q * (t / (2 * q)) + t % (2 * q);
    assert 2 * q * (t / (2 * q)) == 2 * (q * Round(p, q));
  }

  // n * to / from - 1/2 < total < n * to / from + 1, in whole numbers.
  lemma {:induction false} TotalLength(r: Rates, n: nat)
    requires n > 0
    ensures 2 * (r.from * r.Total(n)) > 2 * (n * r.to) - r.from
    ensures r.from * r.Total(n) < n * r.to + r.from
  {
    hide Round, Rates.Ready;
    ReadyLength(r, n);
    RoundLength(n * r.to, r.from);
    assert (n - 1) * r.to == n * r.to - r.to;
    Monotone(Round(n * r.to, r.from), r.Total(n), r.from);
  }

  lemma {:induction false} ValueAt(r: Rates, x: seq<sample>, k: nat)
    requires |x| > 0 && r.Upper(k) <= |x| - 1
    ensures r.Lower(k) <= r.Upper(k)
    ensures r.Value(x, k) == Interpolate(x[r.Lower(k)], x[r.Upper(k)], r.Part(k), r.to)
  {
    hide Interpolate;
  }

  lemma {:induction false} NothingReady(r: Rates)
    ensures r.Ready(0) == 0
  {
  }

  lemma {:induction false} NothingDecoded(pcm: seq<byte>)
    requires pcm == []
    ensures Decode(pcm) == [] && Encode([]) == []
  {
  }

  lemma {:induction false} DecodedLength(pcm: seq<byte>)
    requires |pcm| % 2 == 0
    ensures 2 * |Decode(pcm)| == |pcm|
  {
  }

  // Upsampling makes exactly the rounded number of samples.
  lemma {:induction false} UpsamplingLength(r: Rates, n: nat)
    requires n > 0 && r.from <= r.to
    ensures r.Total(n) == Round(n * r.to, r.from)
    ensures 2 * (n * r.to) - r.from < 2 * (r.from * r.Total(n)) <= 2 * (n * r.to) + r.from
  {
    hide Round, Rates.Ready;
    ReadyLength(r, n);
    assert (n - 1) * r.to == n * r.to - r.to;
    RoundLength(n * r.to, r.from);
    NotBelow(n * r.to, r.from, Round(n * r.to, r.from), r.Ready(n));
  }

  lemma {:induction false} NotBelow(t: int, d: Rate, rounded: int, ready: int)
    requires 2 * t - d < 2 * (d * rounded) && d * ready <= t
    ensures ready <= rounded
  {
    if rounded < ready {
      assert d * (rounded + 1) == d * rounded + d;
      Monotone(rounded + 1, ready, d);
    }
  }

  // Downsampling makes one sample more than that exactly when the last input samples reach one
  // more position before half of it is due.
  lemma {:induction false} DownsamplingLength(r: Rates, n: nat)
    requires n > 0 && r.to <= r.from
    ensures var left := n * r.to % r.from;
            r.Total(n) == Round(n * r.to, r.from) + if r.to <= left && 2 * left < r.from then 1 else 0
    ensures 2 * (n * r.to) - r.from < 2 * (r.from * Round(n * r.to, r.from)) <= 2 * (n * r.to) + r.from
  {
    hide Round, Rates.Ready;
    var t := n * r.to;
    var q, left := t / r.from, t % r.from;
    assert (n - 1) * r.to == t - r.to;
    RoundLength(t, r.from);
    Divided(t, r.from, q, left);
    ReadyIs(r, n, if left >= r.to then q + 1 else q);
    RoundIs(t, r.from, q, left);
  }

  lemma {:induction false} Divided(t: nat, d: Rate, q: int, left: int)
    requires q == t / d && left == t % d
    ensures 0 <= q && t == q * d + left && 0 <= left < d
    ensures (q + 1) * d == q * d + d && (q + 2) * d == q * d + 2 * d
  {
  }

  lemma {:induction false} RoundIs(t: int, d: Rate, q: int, left: int)
    requires t == q * d + left && 0 <= left < d
    ensures Round(t, d) == if 2 * left < d then q else q + 1
  {
    var x := 2 * t + d;
    Quotient(x, 2 * d, q);
    Quotient(x, 2 * d, q + 1);
    Quotient(x, 2 * d, q + 2);
    assert q * (2 * d) == 2 * (q * d);
    assert (q + 1) * (2 * d) == 2 * (q * d) + 2 * d;
    assert (q + 2) * (2 * d) == 2 * (q * d) + 4 * d;
  }

  lemma {:induction false} ReadyIs(r: Rates, n: nat, k: nat)
    requires n > 0 && k * r.from <= (n - 1) * r.to + r.from < (k + 1) * r.from
    ensures r.Ready(n) == k
  {
    var t := (n - 1) * r.to;
    assert (k - 1) * r.from == k * r.from - r.from;
    assert (k + 1) * r.from == k * r.from + r.from;
    Quotient(t, r.from, k - 1);
    Quotient(t, r.from, k);
  }

  // With equal rates the output is the input.
  lemma {:induction false} EqualRates(r: Rates, x: seq<sample>)
    requires r.from == r.to
    ensures r.OneShot(x) == x
  {
    hide Round, Rates.Total, Rates.Value, Rates.Output;
    if |x| > 0 {
      UpsamplingLength(r, |x|);
      RoundIs(|x| * r.to, r.from, |x|, 0);
      OutputAt(r, x, |x|);
      forall k | 0 <= k < |x|
        ensures r.Value(x, k) == x[k]
      {
        WholePosition(r, x, k);
      }
    } else {
      NoOutput(r, x);
    }
  }

  lemma {:induction false} NoOutput(r: Rates, x: seq<sample>)
    requires x == []
    ensures r.OneShot(x) == []
  {
  }

  lemma {:induction false} WholePosition(r: Rates, x: seq<sample>, k: nat)
    requires r.from == r.to && k < |x|
    ensures r.Value(x, k) == x[k]
  {
    hide Interpolate;
    Quotient(r.Ticks(k), r.to, k);
    Quotient(r.Ticks(k), r.to, k + 1);
    assert (k + 1) * r.to == r.Ticks(k) + r.to;
    assert r.Lower(k) == k;
    assert r.Ticks(k) == r.Lower(k) * r.to + r.Part(k);
    InterpolateBetween(x[k], x[k], 0, r.to);
  }

  // ---------- what comes out ----------

  // The rounded quotient v of p by q, as an inequality.
  lemma {:induction false} Rounded(p: int, q: Rate)
    ensures 2 * p - q < 2 * (Round(p, q) * q) <= 2 * p + q
  {
    RoundLength(p, q);
  }

  lemma {:induction false} LowerIs(r: Rates, k: nat, i: nat)
    requires i * r.to <= k * r.from < (i + 1) * r.to
    ensures r.Lower(k) == i && r.Part(k) == k * r.from - i * r.to
  {
    Quotient(r.Ticks(k), r.to, i);
    Quotient(r.Ticks(k), r.to, i + 1);
    assert r.Ticks(k) == r.Lower(k) * r.to + r.Part(k);
  }

  lemma {:induction false} Weights(a: int, b: int, i: int, to: int, t: int)
    ensures a * to + (b - a) * (t - i * to) == a * ((i + 1) * to - t) + b * (t - i * to)
  {
    var part := t - i * to;
    assert (i + 1) * to - t == to - part;
    assert (b - a) * part == b * part - a * part;
    assert a * (to - part) == a * to - a * part;
  }

  // Source samples i and i + 1 lie around position t / to: v is their mean weighted by the distances,
  // rounded to the nearest whole number, halves upwards; from the last sample on v is that sample.
  predicate Between(x: seq<sample>, i: nat, t: int, to: int, v: int)
    requires |x| > 0
  {
    if i + 1 < |x| then
      var mean := x[i] as int * ((i + 1) * to - t) + x[i + 1] as int * (t - i * to);
      2 * mean - to < 2 * (v * to) <= 2 * mean + to
    else v == x[|x| - 1] as int
  }

  /**
   Output sample k lies at source position k * from / to, between source samples i and i + 1: it is
   their mean weighted by the distances, rounded to the nearest sample, halves upwards. From the last
   source sample on it is that sample.
   */
  lemma {:induction false} OutputInterpolates(r: Rates, x: seq<sample>, k: nat, i: nat)
    requires |x| > 0 && k < r.Total(|x|) && i * r.to <= k * r.from < (i + 1) * r.to
    ensures |r.OneShot(x)| == r.Total(|x|)
    ensures Between(x, i, k * r.from, r.to, r.OneShot(x)[k] as int)
  {
    hide Rates.Value, Rates.Total, Rates.Output, Between;
    OutputAt(r, x, r.Total(|x|));
    ValueBetween(r, x, k, i);
  }

  lemma {:induction false} ValueBetween(r: Rates, x: seq<sample>, k: nat, i: nat)
    requires |x| > 0 && i * r.to <= k * r.from < (i + 1) * r.to
    ensures Between(x, i, k * r.from, r.to, r.Value(x, k) as int)
  {
    hide Interpolate, Round, Between;
    LowerIs(r, k, i);
    PartWithin(r, k);
    if i + 1 < |x| {
      InterpolateAtLower(x[i], x[i + 1], r.to);
      assert r.Value(x, k) == Interpolate(x[i], x[i + 1], r.Part(k), r.to);
      NearestMean(x[i], x[i + 1], r.Part(k), r.to);
      Weights(x[i] as int, x[i + 1] as int, i, r.to, k * r.from);
      BetweenNeighbours(x, i, k * r.from, r.to, r.Value(x, k) as int);
    } else {
      HeldValue(r, x, k);
      InterpolateBetween(x[|x| - 1], x[|x| - 1], r.Part(k), r.to);
      BetweenHeld(x, i, k * r.from, r.to);
    }
  }

  lemma {:induction false} NearestMean(a: sample, b: sample, part: int, whole: Rate)
    requires 0 <= part < whole
    ensures var v, p := Interpolate(a, b, part, whole) as int, a as int * whole + (b as int - a as int) * part;
            2 * p - whole < 2 * (v * whole) <= 2 * p + whole
  {
    hide Interpolate, Round;
    InterpolateBetween(a, b, part, whole);
    Rounded(a as int * whole + (b as int - a as int) * part, whole);
  }

  lemma {:induction false} BetweenNeighbours(x: seq<sample>, i: nat, t: int, to: int, v: int)
    requires i + 1 < |x|
    requires var mean := x[i] as int * ((i + 1) * to - t) + x[i + 1] as int * (t - i * to);
             2 * mean - to < 2 * (v * to) <= 2 * mean + to
    ensures Between(x, i, t, to, v)
  {
  }

  lemma {:induction false} BetweenHeld(x: seq<sample>, i: nat, t: int, to: int)
    requires 0 < |x| <= i + 1
    ensures Between(x, i, t, to, x[|x| - 1] as int)
  {
  }

  lemma {:induction false} PartWithin(r: Rates, k: nat)
    ensures 0 <= r.Part(k) < r.to
  {
  }

  // At a whole position the upper sample plays no part.
  lemma {:induction false} InterpolateAtLower(a: sample, b: sample, whole: Rate)
    ensures Interpolate(a, a, 0, whole) == Interpolate(a, b, 0, whole)
  {
    assert (b as int - a as int) * 0 == 0;
  }

  /** Within the source some i is that position: the division of k * from by to. */
  lemma {:induction false} PositionExists(r: Rates, k: nat)
    ensures exists i: nat :: i * r.to <= k * r.from < (i + 1) * r.to
  {
    var i := r.Lower(k);
    assert r.Ticks(k) == i * r.to + r.Part(k);
    assert (i + 1) * r.to == i * r.to + r.to;
  }
}
