/**
 * KVAG audio: a 4-bit IMA/DVI-style ADPCM stream, mono or stereo, behind an
 * optional 14-byte header ("KVAG", u32 data size, u32 sample rate, u16 stereo
 * flag). Without the magic the whole file is decoded as headerless mono.
 */
module Kvag {
  import opened Bytes

  /** Index adjustment per nibble: the same eight entries for either sign. */
  const IndexTable: seq<int> := [
    -1, -1, -1, -1, 2, 4, 6, 8,
    -1, -1, -1, -1, 2, 4, 6, 8
  ]

  /**
   * The 89 IMA ADPCM step sizes, one constant per row of the decoder's stepSizeTable
   * (a single 89-element display is more than the verifier unfolds).
   */
  const StepSizeTable: seq<nat> :=
    StepSizes0 + (StepSizes1 + (StepSizes2 + (StepSizes3 + (StepSizes4 + (StepSizes5 + (StepSizes6 +
    (StepSizes7 + (StepSizes8 + (StepSizes9 + (StepSizes10 + (StepSizes11 + (StepSizes12 + StepSizes13))))))))))))

  const StepSizes0: seq<nat> := [7, 8, 9, 10, 11, 12, 13]
  const StepSizes1: seq<nat> := [14, 16, 17, 19, 21, 23, 25, 28]
  const StepSizes2: seq<nat> := [31, 34, 37, 41, 45, 50, 55, 60]
  const StepSizes3: seq<nat> := [66, 73, 80, 88, 97, 107, 118]
  const StepSizes4: seq<nat> := [130, 143, 157, 173, 190, 209, 230]
  const StepSizes5: seq<nat> := [253, 279, 307, 337, 371, 408, 449]
  const StepSizes6: seq<nat> := [494, 544, 598, 658, 724, 796, 876]
  const StepSizes7: seq<nat> := [963, 1060, 1166, 1282, 1411, 1552]
  const StepSizes8: seq<nat> := [1707, 1878, 2066, 2272, 2499, 2749]
  const StepSizes9: seq<nat> := [3024, 3327, 3660, 4026, 4428, 4871]
  const StepSizes10: seq<nat> := [5358, 5894, 6484, 7132, 7845, 8630]
  const StepSizes11: seq<nat> := [9493, 10442, 11487, 12635, 13899]
  const StepSizes12: seq<nat> := [15289, 16818, 18500, 20350, 22385]
  const StepSizes13: seq<nat> := [24623, 27086, 29794, 32767]

  const MaxIndex := 88

  type Nibble = x: int | 0 <= x < 16

  /** The three variables the decoder keeps per channel. */
  datatype Channel = Channel(index: int, predictor: int, step: int)

  /** The clamps hold: index in [0,88], predictor a 16-bit sample; the step is not negative. */
  predicate Valid(c: Channel)
  {
    0 <= c.index <= MaxIndex && -0x8000 <= c.predictor <= 0x7FFF && 0 <= c.step
  }

  /** The step is the table entry for the index. */
  predicate InStep(c: Channel)
    requires 0 <= c.index <= MaxIndex
  {
    c.step == StepSizeTable[c.index]
  }

  /** index = 0, predictor = 0, step = StepSizeTable[0]. */
  const Initial := Channel(0, 0, 7)

  /**
   * table[i], found by walking the table one entry at a time. DecodeNibble
   * looks the step up through this so that a proof that does not care about
   * the step does not expand the whole table (LookupIndex relates the two).
   */
  function Lookup(table: seq<nat>, i: nat): nat
    requires i < |table|
    decreases i
  {
    if i == 0 then table[0] else Lookup(table[1..], i - 1)
  }

  /** Math.Clamp */
  function Clamp(v: int, lo: int, hi: int): int
    requires lo <= hi
  {
    if v < lo then lo else if v > hi then hi else v
  }

  /** (step >> 3) + (bit 2 ? step) + (bit 1 ? step >> 1) + (bit 0 ? step >> 2) */
  function Diff(step: nat, nibble: Nibble): nat
  {
    var magnitude := nibble % 8;
    step / 8
      + (if magnitude >= 4 then step else 0)
      + (if (magnitude / 2) % 2 == 1 then step / 2 else 0)
      + (if magnitude % 2 == 1 then step / 4 else 0)
  }

  /**
   * One nibble through one channel. The index moves by IndexTable and is
   * clamped; the difference is built from the old step; bit 3 is the sign; the
   * new step is looked up at the new index.
   */
  function DecodeNibble(c: Channel, nibble: Nibble): (c': Channel)
    requires Valid(c)
    ensures Valid(c')
  {
    var index := Clamp(c.index + IndexTable[nibble], 0, MaxIndex);
    var diff := Diff(c.step, nibble);
    var predictor := if nibble >= 8 then c.predictor - diff else c.predictor + diff;
    Channel(index, Clamp(predictor, -0x8000, 0x7FFF), Lookup(StepSizeTable, index))
  }

  /** The samples one channel emits for a stream of nibbles from state c: the predictor after each. */
  function Samples(c: Channel, ns: seq<Nibble>): (s: seq<i16>)
    requires Valid(c)
    ensures |s| == |ns|
    decreases |ns|
  {
    if ns == [] then []
    else
      var c' := DecodeNibble(c, ns[0]);
      [c'.predictor as i16] + Samples(c', ns[1..])
  }

  function Hi(b: u8): Nibble { b / 16 }
  function Lo(b: u8): Nibble { b % 16 }

  /**
   * The nibbles the mono decoder takes: high then low nibble of every byte,
   * except the low nibble of the last byte, because the end-of-stream test
   * runs before it.
   */
  function MonoNibbles(bs: seq<u8>): (ns: seq<Nibble>)
    ensures |ns| == if bs == [] then 0 else 2 * |bs| - 1
    decreases |bs|
  {
    if bs == [] then []
    else if |bs| == 1 then [Hi(bs[0])]
    else [Hi(bs[0]), Lo(bs[0])] + MonoNibbles(bs[1..])
  }

  /** The low nibbles of a stereo stream: the left channel. */
  function LoNibbles(bs: seq<u8>): (ns: seq<Nibble>)
    ensures |ns| == |bs| && forall k :: 0 <= k < |bs| ==> ns[k] == Lo(bs[k])
  {
    seq(|bs|, k requires 0 <= k < |bs| => Lo(bs[k]))
  }

  /** The high nibbles of a stereo stream: the right channel. */
  function HiNibbles(bs: seq<u8>): (ns: seq<Nibble>)
    ensures |ns| == |bs| && forall k :: 0 <= k < |bs| ==> ns[k] == Hi(bs[k])
  {
    seq(|bs|, k requires 0 <= k < |bs| => Hi(bs[k]))
  }

  /** Two equally long sample streams, alternately: a[0], b[0], a[1], b[1], ... */
  function Interleave(a: seq<i16>, b: seq<i16>): (s: seq<i16>)
    requires |a| == |b|
    ensures |s| == 2 * |a|
    decreases |a|
  {
    if a == [] then [] else [a[0], b[0]] + Interleave(a[1..], b[1..])
  }

  /**
   * A stereo stream: two channels, each with its own state from Initial, the
   * left one fed the low nibbles and the right one the high nibbles; per byte
   * the left sample comes first.
   */
  function StereoSamples(bs: seq<u8>): seq<i16>
  {
    Interleave(Samples(Initial, LoNibbles(bs)), Samples(Initial, HiNibbles(bs)))
  }

  /** new short[dataSize * 2]: the product is a uint and wraps. */
  function OutputLength(dataSize: nat): nat
  {
    (2 * dataSize) % 0x1_0000_0000
  }

  /** The samples stored into a zeroed array of the given length; too many overrun it. */
  function Fit(samples: seq<i16>, length: nat): Result<seq<i16>>
  {
    if |samples| <= length then Success(samples + seq(length - |samples|, _ => 0))
    else Failure(IndexOutOfRange)
  }

  /** AdpcmDecompressMono on a payload: its samples in an array of 2 * dataSize. */
  function MonoSpec(payload: seq<u8>, dataSize: nat): Result<seq<i16>>
  {
    Fit(Samples(Initial, MonoNibbles(payload)), OutputLength(dataSize))
  }

  /** AdpcmDecompressStereo on a payload: its interleaved samples in an array of 2 * dataSize. */
  function StereoSpec(payload: seq<u8>, dataSize: nat): Result<seq<i16>>
  {
    Fit(StereoSamples(payload), OutputLength(dataSize))
  }

  /**
   * The body both decoders run per nibble: move the index, add or subtract the
   * difference built from the old step, clamp, and look up the new step. It
   * takes a channel from state k of its trace to state k + 1.
   */
  method DecodeStep(index: int, predictor: int, step: int, nibble: Nibble,
                    ghost c: Channel, ghost ns: seq<Nibble>, ghost states: seq<Channel>, ghost k: nat)
    returns (index': int, predictor': int, step': int)
    requires IsTrace(c, ns, states) && k < |ns| && nibble == ns[k]
    requires Channel(index, predictor, step) == states[k]
    ensures Channel(index', predictor', step') == states[k + 1] && Valid(states[k + 1])
  {
    assert Follows(ns, states, k);
    index' := index + IndexTable[nibble];
    index' := Clamp(index', 0, MaxIndex);
    var diff := Diff(step, nibble);
    if nibble >= 8 {
      predictor' := predictor - diff;
    } else {
      predictor' := predictor + diff;
    }
    predictor' := Clamp(predictor', -0x8000, 0x7FFF);
    step' := StepSizeTable[index'];
    LookupIndex(StepSizeTable, index');
  }

  /**
   * AdpcmDecompressMono: decodes from the reader's position to the end of its
   * buffer (not to dataSize) into a zeroed array of 2 * dataSize samples.
   */
  method AdpcmDecompressMono(reader: Reader, dataSize: nat) returns (r: Result<seq<i16>>)
    requires reader.pos <= |reader.data|
    modifies reader
    ensures r == MonoSpec(reader.data[old(reader.pos)..], dataSize)
  {
    ghost var data, start := reader.data, reader.pos;
    ghost var payload := data[start..];
    ghost var ns := MonoNibbles(payload);
    ghost var states := TraceOf(Initial, ns);
    var output := new i16[OutputLength(dataSize)](_ => 0);

    var index := 0;
    var predictor := 0;
    var step := StepSizeTable[index];
    var nibbleIdx := 0;
    var i := 0;
    var curByte: u8 := 0;
    assert Channel(index, predictor, step) == Initial;

    while reader.HasMore()
      invariant reader.data == data && start <= reader.pos <= |data|
      invariant nibbleIdx == 0 || nibbleIdx == 1
      invariant i + nibbleIdx == 2 * (reader.pos - start)
      invariant nibbleIdx == 1 ==> start < reader.pos && curByte == payload[reader.pos - start - 1]
      invariant i <= |ns| && i <= output.Length
      invariant Channel(index, predictor, step) == states[i]
      invariant forall t :: 0 <= t < i ==> output[t] == states[t + 1].predictor
      invariant forall t :: i <= t < output.Length ==> output[t] == 0
      decreases |data| - reader.pos, nibbleIdx
    {
      var nibble: Nibble;
      if nibbleIdx == 1 {
        nibble := Lo(curByte);
        MonoNibblePair(payload, reader.pos - start - 1);
      } else {
        MonoNibblePair(payload, reader.pos - start);
        var rb := reader.ReadU8();
        curByte := rb.value;
        nibble := Hi(curByte);
      }
      nibbleIdx := if nibbleIdx == 0 then 1 else 0;
      index, predictor, step := DecodeStep(index, predictor, step, nibble, Initial, ns, states, i);

      if i >= output.Length {
        return Failure(IndexOutOfRange);
      }
      output[i] := predictor;
      i := i + 1;
    }
    MonoFilled(ns, states, output[..]);
    return Success(output[..]);
  }

  /**
   * AdpcmDecompressStereo: each byte gives a left sample from its low nibble
   * and a right sample from its high nibble, each channel with its own state.
   */
  method AdpcmDecompressStereo(reader: Reader, dataSize: nat) returns (r: Result<seq<i16>>)
    requires reader.pos <= |reader.data|
    modifies reader
    ensures r == StereoSpec(reader.data[old(reader.pos)..], dataSize)
  {
    ghost var data, start := reader.data, reader.pos;
    ghost var payload := data[start..];
    ghost var left := TraceOf(Initial, LoNibbles(payload));
    ghost var right := TraceOf(Initial, HiNibbles(payload));
    var output := new i16[OutputLength(dataSize)](_ => 0);
    OutputLengthEven(dataSize);

    var index1, predictor1 := 0, 0;
    var step1 := StepSizeTable[index1];
    var index2, predictor2 := 0, 0;
    var step2 := StepSizeTable[index2];
    var i := 0;
    assert Channel(index1, predictor1, step1) == Channel(index2, predictor2, step2) == Initial;

    while reader.HasMore()
      invariant reader.data == data && start <= reader.pos <= |data|
      invariant i == 2 * (reader.pos - start) <= output.Length && output.Length % 2 == 0
      invariant Channel(index1, predictor1, step1) == left[reader.pos - start]
      invariant Channel(index2, predictor2, step2) == right[reader.pos - start]
      invariant forall k :: 0 <= k < reader.pos - start ==>
        output[2 * k] == left[k + 1].predictor && output[2 * k + 1] == right[k + 1].predictor
      invariant forall t :: i <= t < output.Length ==> output[t] == 0
      decreases |data| - reader.pos
    {
      ghost var n := reader.pos - start;
      var rb := reader.ReadU8();
      var curByte := rb.value;
      var nibble1 := Lo(curByte);  // left channel
      var nibble2 := Hi(curByte);  // right channel
      assert payload[n] == curByte;

      index1, predictor1, step1 := DecodeStep(index1, predictor1, step1, nibble1, Initial, LoNibbles(payload), left, n);
      index2, predictor2, step2 := DecodeStep(index2, predictor2, step2, nibble2, Initial, HiNibbles(payload), right, n);

      if i >= output.Length {
        return Failure(IndexOutOfRange);
      }
      EvenRoom(n, output.Length);
      output[i] := predictor1;
      i := i + 1;
      // the array has even length, so the right sample always fits after the left
      output[i] := predictor2;
      i := i + 1;
    }
    StereoFilled(payload, left, right, output[..]);
    return Success(output[..]);
  }

  /** The decoded audio. */
  datatype Kvag = Kvag(sampleRate: u32, isStereo: bool, pcm: seq<i16>)

  const Magic: seq<u8> := Tag("KVAG")

  /** 22050 / 2; the rate of a headerless file is a guess of the original authors. */
  const HeaderlessSampleRate: u32 := 11025

  /** Kvag.Read on the whole file. */
  function ReadSpec(bytes: seq<u8>): Result<Kvag>
  {
    if TagAt(bytes, 0) == Magic then
      if |bytes| < 14 then Failure(EndOfStream)
      else
        var dataSize := U32At(bytes, 4);
        var sampleRate := U32At(bytes, 8);
        var isStereo := U16At(bytes, 12) == 1;
        var pcm :- if isStereo then StereoSpec(bytes[14..], dataSize) else MonoSpec(bytes[14..], dataSize);
        Success(Kvag(sampleRate, isStereo, pcm))
    else
      var pcm :- MonoSpec(bytes, |bytes|);
      Success(Kvag(HeaderlessSampleRate, false, pcm))
  }

  /** Kvag.Read: the header when the magic is there, else headerless mono from offset 0. */
  method Read(bytes: seq<u8>) returns (r: Result<Kvag>)
    ensures r == ReadSpec(bytes)
  {
    var reader := new Reader(bytes);
    var sampleRate: u32;
    var isStereo: bool;
    var pcm: seq<i16>;

    var magic := reader.ReadTag();
    if magic == Magic {
      var dataSize :- reader.ReadU32();
      sampleRate :- reader.ReadU32();
      var stereoFlag :- reader.ReadU16();
      isStereo := stereoFlag == 1;
      assert reader.pos == 14;
      if isStereo {
        pcm :- AdpcmDecompressStereo(reader, dataSize);
      } else {
        pcm :- AdpcmDecompressMono(reader, dataSize);
      }
    } else {
      var ok := reader.Seek(0);
      sampleRate := 22050 / 2;
      isStereo := false;
      assert bytes[0..] == bytes;
      pcm :- AdpcmDecompressMono(reader, |bytes|);
    }
    return Success(Kvag(sampleRate, isStereo, pcm));
  }

  // ---------------------------------------------------------------------------
  // Lemmas the decoders use

  lemma {:induction false} LookupIndex(table: seq<nat>, i: nat)
    requires i < |table|
    ensures Lookup(table, i) == table[i]
    decreases i
  {
    if i > 0 {
      LookupIndex(table[1..], i - 1);
    }
  }

  /** State k + 1 of a trace is state k after nibble k. */
  predicate Follows(ns: seq<Nibble>, states: seq<Channel>, k: nat)
    requires k < |ns| && |states| == |ns| + 1
  {
    Valid(states[k]) && states[k + 1] == DecodeNibble(states[k], ns[k])
  }

  /** states[k] is the state of a channel started in c after the first k nibbles of ns. */
  predicate IsTrace(c: Channel, ns: seq<Nibble>, states: seq<Channel>)
  {
    && |states| == |ns| + 1 && states[0] == c && Valid(c)
    && forall k :: 0 <= k < |ns| ==> Follows(ns, states, k)
  }

  /** The trace of a channel over a nibble stream. */
  lemma {:induction false} TraceOf(c: Channel, ns: seq<Nibble>) returns (states: seq<Channel>)
    requires Valid(c)
    ensures IsTrace(c, ns, states)
    decreases |ns|
  {
    if ns == [] {
      states := [c];
    } else {
      var rest := TraceOf(DecodeNibble(c, ns[0]), ns[1..]);
      states := [c] + rest;
      forall k | 0 <= k < |ns| ensures Follows(ns, states, k) {
        if k > 0 {
          assert Follows(ns[1..], rest, k - 1);
        }
      }
    }
  }

  /** A trace without its first nibble is the trace from the second state. */
  lemma {:induction false} TraceTail(c: Channel, ns: seq<Nibble>, states: seq<Channel>)
    requires IsTrace(c, ns, states) && ns != []
    ensures IsTrace(DecodeNibble(c, ns[0]), ns[1..], states[1..])
  {
    assert Follows(ns, states, 0);
    forall k | 0 <= k < |ns| - 1 ensures Follows(ns[1..], states[1..], k) {
      assert Follows(ns, states, k + 1);
    }
  }

  /** The samples of a channel are the predictors of its trace, after the first state. */
  lemma {:induction false} TraceSample(c: Channel, ns: seq<Nibble>, states: seq<Channel>, k: nat)
    requires IsTrace(c, ns, states) && k < |ns|
    ensures Samples(c, ns)[k] == states[k + 1].predictor
    decreases k
  {
    assert Follows(ns, states, 0);
    if k > 0 {
      var c' := DecodeNibble(c, ns[0]);
      TraceTail(c, ns, states);
      TraceSample(c', ns[1..], states[1..], k - 1);
      assert Samples(c, ns)[k] == Samples(c', ns[1..])[k - 1];
    }
  }

  /** Byte j of a mono stream gives nibble 2j (high) and, unless it is the last, nibble 2j + 1 (low). */
  lemma {:induction false} MonoNibblePair(bs: seq<u8>, j: nat)
    requires j < |bs|
    ensures MonoNibbles(bs)[2 * j] == Hi(bs[j])
    ensures 2 * j + 1 < |MonoNibbles(bs)| ==> MonoNibbles(bs)[2 * j + 1] == Lo(bs[j])
    decreases j
  {
    if j > 0 {
      MonoNibblePair(bs[1..], j - 1);
    }
  }

  /** What the mono loop leaves when the input is used up is MonoSpec's array. */
  lemma {:induction false} MonoFilled(ns: seq<Nibble>, states: seq<Channel>, out: seq<i16>)
    requires IsTrace(Initial, ns, states) && |ns| <= |out|
    requires forall t :: 0 <= t < |ns| ==> out[t] == states[t + 1].predictor
    requires forall t :: |ns| <= t < |out| ==> out[t] == 0
    ensures Fit(Samples(Initial, ns), |out|) == Success(out)
  {
    forall t | 0 <= t < |ns| ensures out[t] == Samples(Initial, ns)[t] {
      TraceSample(Initial, ns, states, t);
    }
    FitFilled(out, Samples(Initial, ns));
  }

  /** What the stereo loop leaves when the input is used up is StereoSpec's array. */
  lemma {:induction false} StereoFilled(bs: seq<u8>, left: seq<Channel>, right: seq<Channel>, out: seq<i16>)
    requires IsTrace(Initial, LoNibbles(bs), left) && IsTrace(Initial, HiNibbles(bs), right)
    requires 2 * |bs| <= |out|
    requires forall k :: 0 <= k < |bs| ==> out[2 * k] == left[k + 1].predictor && out[2 * k + 1] == right[k + 1].predictor
    requires forall t :: 2 * |bs| <= t < |out| ==> out[t] == 0
    ensures Fit(StereoSamples(bs), |out|) == Success(out)
  {
    var l, r := Samples(Initial, LoNibbles(bs)), Samples(Initial, HiNibbles(bs));
    forall k | 0 <= k < |bs| ensures out[2 * k] == l[k] && out[2 * k + 1] == r[k] {
      TraceSample(Initial, LoNibbles(bs), left, k);
      TraceSample(Initial, HiNibbles(bs), right, k);
    }
    InterleaveFilled(out, l, r);
  }

  /** Sample 2k of an interleaving is a[k], sample 2k + 1 is b[k]. */
  lemma {:induction false} InterleaveAt(a: seq<i16>, b: seq<i16>, k: nat)
    requires |a| == |b| && k < |a|
    ensures Interleave(a, b)[2 * k] == a[k] && Interleave(a, b)[2 * k + 1] == b[k]
    decreases k
  {
    if k > 0 {
      InterleaveAt(a[1..], b[1..], k - 1);
    }
  }

  /** A zeroed array holding two interleaved streams at its front is what Fit returns. */
  lemma {:induction false} InterleaveFilled(out: seq<i16>, a: seq<i16>, b: seq<i16>)
    requires |a| == |b| && 2 * |a| <= |out|
    requires forall k :: 0 <= k < |a| ==> out[2 * k] == a[k] && out[2 * k + 1] == b[k]
    requires forall t :: 2 * |a| <= t < |out| ==> out[t] == 0
    ensures Fit(Interleave(a, b), |out|) == Success(out)
  {
    var s := Interleave(a, b);
    forall t | 0 <= t < 2 * |a| ensures out[t] == s[t] {
      var k := t / 2;
      InterleaveAt(a, b, k);
      assert t == 2 * k || t == 2 * k + 1;
    }
    FitFilled(out, s);
  }

  /** A zeroed array holding a channel's samples at its front is what Fit returns. */
  lemma {:induction false} FitFilled(out: seq<i16>, samples: seq<i16>)
    requires |samples| <= |out|
    requires forall t :: 0 <= t < |samples| ==> out[t] == samples[t]
    requires forall t :: |samples| <= t < |out| ==> out[t] == 0
    ensures Fit(samples, |out|) == Success(out)
  {
    assert out == samples + seq(|out| - |samples|, _ => 0);
  }

  lemma {:induction false} EvenRoom(n: nat, length: nat)
    requires 2 * n < length && length % 2 == 0
    ensures 2 * n + 1 < length
  {
  }

  lemma {:induction false} OutputLengthEven(dataSize: nat)
    ensures OutputLength(dataSize) % 2 == 0
  {
  }

  // ---------------------------------------------------------------------------
  // Properties of the decoders

  /** Each entry is larger than the one before. */
  predicate Increasing(s: seq<nat>)
  {
    forall i :: 0 < i < |s| ==> s[i - 1] < s[i]
  }

  lemma {:induction false} IncreasingConcat(a: seq<nat>, b: seq<nat>)
    requires Increasing(a) && Increasing(b) && a != [] && b != [] && a[|a| - 1] < b[0]
    ensures Increasing(a + b)
  {
    forall i | 0 < i < |a + b| ensures (a + b)[i - 1] < (a + b)[i] {
      if i > |a| {
        assert (a + b)[i - 1] == b[i - 1 - |a|] && (a + b)[i] == b[i - |a|];
      }
    }
  }

  /** The step table is strictly increasing: each row is, and each row ends below the next. */
  lemma {:induction false} StepSizesIncrease()
    ensures Increasing(StepSizeTable)
  {
    var tail := StepSizes13;
    IncreasingConcat(StepSizes12, tail);
    tail := StepSizes12 + tail;
    IncreasingConcat(StepSizes11, tail);
    tail := StepSizes11 + tail;
    IncreasingConcat(StepSizes10, tail);
    tail := StepSizes10 + tail;
    IncreasingConcat(StepSizes9, tail);
    tail := StepSizes9 + tail;
    IncreasingConcat(StepSizes8, tail);
    tail := StepSizes8 + tail;
    IncreasingConcat(StepSizes7, tail);
    tail := StepSizes7 + tail;
    IncreasingConcat(StepSizes6, tail);
    tail := StepSizes6 + tail;
    IncreasingConcat(StepSizes5, tail);
    tail := StepSizes5 + tail;
    IncreasingConcat(StepSizes4, tail);
    tail := StepSizes4 + tail;
    IncreasingConcat(StepSizes3, tail);
    tail := StepSizes3 + tail;
    IncreasingConcat(StepSizes2, tail);
    tail := StepSizes2 + tail;
    IncreasingConcat(StepSizes1, tail);
    tail := StepSizes1 + tail;
    IncreasingConcat(StepSizes0, tail);
    tail := StepSizes0 + tail;
    assert tail == StepSizeTable;
  }

  /** The step always follows the index: DecodeNibble keeps InStep. */
  lemma {:induction false} StepFollowsIndex(c: Channel, nibble: Nibble)
    requires Valid(c)
    ensures InStep(DecodeNibble(c, nibble))
  {
    var c' := DecodeNibble(c, nibble);
    LookupIndex(StepSizeTable, c'.index);
  }

  /** The initial state is a fixed point of the zero nibble. */
  lemma {:induction false} ZeroNibbleAtRest()
    ensures DecodeNibble(Initial, 0) == Initial
  {
  }

  /**
   * A zero nibble leaves the predictor where it is exactly when the step is
   * below 8 (index 0) or the predictor is already at its ceiling: from any
   * other index step >> 3 is at least 1.
   */
  lemma {:induction false} ZeroNibble(c: Channel)
    requires Valid(c) && InStep(c)
    ensures DecodeNibble(c, 0).predictor == c.predictor <==> c.index == 0 || c.predictor == 0x7FFF
  {
    StepSizesIncrease();
    if c.index > 0 {
      StepSizesAtLeast8(c.index);
    }
  }

  lemma {:induction false} StepSizesAtLeast8(i: nat)
    requires 0 < i < |StepSizeTable|
    ensures StepSizeTable[i] >= 8
  {
    StepSizesIncrease();
    if i > 1 {
      StepSizesAtLeast8(i - 1);
      assert StepSizeTable[i - 1] < StepSizeTable[i];
    } else {
      assert StepSizeTable[1] == 8;
    }
  }

  /** An all-zero nibble stream decodes to silence. */
  lemma {:induction false} Silence(ns: seq<Nibble>)
    requires forall k :: 0 <= k < |ns| ==> ns[k] == 0
    ensures Samples(Initial, ns) == seq(|ns|, _ => 0)
    decreases |ns|
  {
    if ns != [] {
      ZeroNibbleAtRest();
      Silence(ns[1..]);
    }
  }

  /** An all-zero payload decodes to silence in mono. */
  lemma {:induction false} MonoSilence(payload: seq<u8>)
    requires forall k :: 0 <= k < |payload| ==> payload[k] == 0
    ensures Samples(Initial, MonoNibbles(payload)) == seq(|MonoNibbles(payload)|, _ => 0)
  {
    var ns := MonoNibbles(payload);
    forall k | 0 <= k < |ns| ensures ns[k] == 0 {
      MonoNibblePair(payload, k / 2);
      assert k == 2 * (k / 2) || k == 2 * (k / 2) + 1;
    }
    Silence(ns);
  }

  /** An all-zero payload decodes to silence in stereo. */
  lemma {:induction false} StereoSilence(payload: seq<u8>)
    requires forall k :: 0 <= k < |payload| ==> payload[k] == 0
    ensures StereoSamples(payload) == seq(2 * |payload|, _ => 0)
  {
    var left, right := LoNibbles(payload), HiNibbles(payload);
    Silence(left);
    Silence(right);
    var s := StereoSamples(payload);
    forall t | 0 <= t < 2 * |payload| ensures s[t] == 0 {
      var k := t / 2;
      InterleaveAt(Samples(Initial, left), Samples(Initial, right), k);
      assert t == 2 * k || t == 2 * k + 1;
      assert Samples(Initial, left)[k] == 0 && Samples(Initial, right)[k] == 0;
    }
  }

  /** Fit succeeds exactly when the samples fit, and then fills the whole array. */
  lemma {:induction false} FitLength(samples: seq<i16>, length: nat)
    ensures Fit(samples, length).Success? <==> |samples| <= length
    ensures Fit(samples, length).Success? ==> |Fit(samples, length).value| == length
  {
  }

  /**
   * While 2 * dataSize does not wrap, the mono decoder succeeds exactly when
   * the payload has at most dataSize bytes, and returns 2 * dataSize samples.
   */
  lemma {:induction false} MonoFits(payload: seq<u8>, dataSize: nat)
    requires dataSize < 0x8000_0000
    ensures MonoSpec(payload, dataSize).Success? <==> |payload| <= dataSize
    ensures MonoSpec(payload, dataSize).Success? ==> |MonoSpec(payload, dataSize).value| == 2 * dataSize
  {
    FitLength(Samples(Initial, MonoNibbles(payload)), OutputLength(dataSize));
  }

  /** The same for the stereo decoder. */
  lemma {:induction false} StereoFits(payload: seq<u8>, dataSize: nat)
    requires dataSize < 0x8000_0000
    ensures StereoSpec(payload, dataSize).Success? <==> |payload| <= dataSize
    ensures StereoSpec(payload, dataSize).Success? ==> |StereoSpec(payload, dataSize).value| == 2 * dataSize
  {
    FitLength(StereoSamples(payload), OutputLength(dataSize));
  }

  /**
   * A file without the magic is decoded as mono at 11025 Hz from offset 0 with
   * dataSize the file length; short of 2^31 bytes it always succeeds, with
   * 2n samples of which the last stays 0.
   */
  lemma {:induction false} Headerless(bytes: seq<u8>)
    requires TagAt(bytes, 0) != Magic && |bytes| < 0x8000_0000
    ensures ReadSpec(bytes).Success?
    ensures ReadSpec(bytes).value.sampleRate == 11025 && !ReadSpec(bytes).value.isStereo
    ensures |ReadSpec(bytes).value.pcm| == 2 * |bytes|
    ensures ReadSpec(bytes).value.pcm[..|MonoNibbles(bytes)|] == Samples(Initial, MonoNibbles(bytes))
    ensures bytes != [] ==> ReadSpec(bytes).value.pcm[2 * |bytes| - 1] == 0
  {
    MonoFits(bytes, |bytes|);
  }

  /**
   * A file with the magic: the rate is the u32 at 8, the stream is stereo
   * exactly when the u16 at 12 is 1, and the payload from 14 goes to the
   * matching decoder.
   */
  lemma {:induction false} Header(bytes: seq<u8>)
    requires |bytes| >= 14 && bytes[..4] == Magic
    ensures ReadSpec(bytes).Success? ==>
      ReadSpec(bytes).value.sampleRate == U32At(bytes, 8) &&
      ReadSpec(bytes).value.isStereo == (U16At(bytes, 12) == 1)
    ensures U16At(bytes, 12) == 1 ==>
      ReadSpec(bytes) == (var pcm :- StereoSpec(bytes[14..], U32At(bytes, 4)); Success(Kvag(U32At(bytes, 8), true, pcm)))
    ensures U16At(bytes, 12) != 1 ==>
      ReadSpec(bytes) == (var pcm :- MonoSpec(bytes[14..], U32At(bytes, 4)); Success(Kvag(U32At(bytes, 8), false, pcm)))
  {
  }
}
