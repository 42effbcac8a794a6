/**
 * SPT sprites: a u32 header (frame count in the low 30 bits, bit 31 set when
 * the frames are RLE-compressed), a table of frame offsets, and at each offset
 * a u32 width, a u32 height and the frame's ARGB1555 pixels, either as an RLE
 * stream or as width * height raw little-endian words.
 */
module Spt {
  import opened Bytes
  import Rle

  datatype SptFrame = SptFrame(width: u32, height: u32, pixels: seq<u16>)

  datatype Spt = Spt(frames: seq<SptFrame>)

  /** header & 0x3FFFFFFF */
  function FrameCount(header: u32): nat { header % 0x4000_0000 }

  /** (header & 0x80000000) != 0 */
  predicate IsRle(header: u32) { header >= 0x8000_0000 }

  /** The frame at byte offset pointer. */
  function FrameSpec(bytes: seq<u8>, pointer: u32, isRle: bool): Result<SptFrame>
  {
    if pointer > MaxPosition then Failure(ArgumentOutOfRange)
    else if pointer + 8 > |bytes| then Failure(EndOfStream)
    else
      var width, height := U32At(bytes, pointer), U32At(bytes, pointer + 4);
      var count := MulU32(width, height);
      var pixels :-
        if isRle then Rle.Decode16Spec(bytes, pointer + 8, Rle.Repeat(0, count))
        else if pointer + 8 + 2 * count <= |bytes| then Success(U16s(bytes, pointer + 8, count))
        else Failure(EndOfStream);
      Success(SptFrame(width, height, pixels))
  }

  /** The frames at the given offsets, in order; the first frame that fails fails them all. */
  function FramesSpec(bytes: seq<u8>, pointers: seq<u32>, isRle: bool): (r: Result<seq<SptFrame>>)
    ensures r.Success? ==> |r.value| == |pointers|
    ensures r.Success? ==> forall k :: 0 <= k < |pointers| ==> FrameSpec(bytes, pointers[k], isRle) == Success(r.value[k])
    decreases |pointers|
  {
    if pointers == [] then Success([])
    else
      var init :- FramesSpec(bytes, pointers[..|pointers| - 1], isRle);
      var last :- FrameSpec(bytes, pointers[|pointers| - 1], isRle);
      Success(init + [last])
  }

  /** Spt.Read on the whole file. */
  function ReadSpec(bytes: seq<u8>): Result<Spt>
  {
    if |bytes| < 4 then Failure(EndOfStream)
    else
      var header := U32At(bytes, 0);
      var count := FrameCount(header);
      if 4 + 4 * count > |bytes| then Failure(EndOfStream)
      else
        var frames :- FramesSpec(bytes, U32s(bytes, 4, count), IsRle(header));
        Success(Spt(frames))
  }

  /** Spt.Read: the header, the offset table, then every frame in table order. */
  method Read(bytes: seq<u8>) returns (r: Result<Spt>)
    ensures r == ReadSpec(bytes)
  {
    var reader := new Reader(bytes);
    var header :- reader.ReadU32();
    var frameCount := FrameCount(header);
    var isRle := IsRle(header);

    var framePointers := new u32[frameCount];
    var i := 0;
    while i < frameCount
      invariant i <= frameCount && reader.pos == 4 + 4 * i <= |bytes|
      invariant forall t :: 0 <= t < i ==> framePointers[t] == U32At(bytes, 4 + 4 * t)
    {
      var pointer := reader.ReadU32();
      if pointer.Failure? {
        assert 4 + 4 * frameCount > |bytes|;
        return Failure(pointer.error);
      }
      framePointers[i] := pointer.value;
      i := i + 1;
    }
    assert framePointers[..] == U32s(bytes, 4, frameCount);

    var frames :- ReadFrames(reader, framePointers, isRle);
    return Success(Spt(frames));
  }

  /** The frame loop of Spt.Read: every frame of the table, in order, into a fresh array. */
  method ReadFrames(reader: Reader, framePointers: array<u32>, isRle: bool) returns (r: Result<seq<SptFrame>>)
    modifies reader
    ensures r == FramesSpec(reader.data, framePointers[..], isRle)
  {
    ghost var pointers := framePointers[..];
    var frames := new SptFrame[framePointers.Length];
    var i := 0;
    while i < framePointers.Length
      invariant i <= framePointers.Length && framePointers[..] == pointers
      invariant FramesSpec(reader.data, pointers[..i], isRle) == Success(frames[..i])
    {
      var frame := ReadFrame(reader, framePointers[i], isRle);
      if frame.Failure? {
        FirstFailure(reader.data, pointers, isRle, i);
        return Failure(frame.error);
      }
      FramesStep(reader.data, pointers, isRle, i, frames[..i], frame.value);
      frames[i] := frame.value;
      i := i + 1;
      assert frames[..i] == frames[..i - 1] + [frame.value];
    }
    assert pointers[..i] == pointers && frames[..i] == frames[..];
    return Success(frames[..]);
  }

  /** One turn of the frame loop: seek to the frame, read its header and its pixels. */
  method ReadFrame(reader: Reader, pointer: u32, isRle: bool) returns (r: Result<SptFrame>)
    modifies reader
    ensures r == FrameSpec(reader.data, pointer, isRle)
  {
    var ok :- reader.Seek(pointer);
    var width :- reader.ReadU32();
    var height :- reader.ReadU32();

    var count := MulU32(width, height);
    var pixels := new u16[count](_ => 0);
    if isRle {
      assert pixels[..] == Rle.Repeat(0, count);
      var decoded :- Rle.Decode16(reader.data, pointer + 8, pixels);
    } else {
      var k := 0;
      while k < pixels.Length
        invariant k <= pixels.Length && reader.pos == pointer + 8 + 2 * k <= |reader.data|
        invariant forall t :: 0 <= t < k ==> pixels[t] == U16At(reader.data, pointer + 8 + 2 * t)
      {
        var word :- reader.ReadU16();
        pixels[k] := word;
        k := k + 1;
      }
      assert pixels[..] == U16s(reader.data, pointer + 8, count);
    }
    return Success(SptFrame(width, height, pixels[..]));
  }

  /** One more frame that reads extends the frames read so far. */
  lemma FramesStep(bytes: seq<u8>, pointers: seq<u32>, isRle: bool, i: nat, init: seq<SptFrame>, last: SptFrame)
    requires i < |pointers| && FramesSpec(bytes, pointers[..i], isRle) == Success(init)
    requires FrameSpec(bytes, pointers[i], isRle) == Success(last)
    ensures FramesSpec(bytes, pointers[..i + 1], isRle) == Success(init + [last])
  {
    assert pointers[..i + 1][..i] == pointers[..i];
  }

  /** When frame i is the first that fails, the whole table fails with its error. */
  lemma {:induction false} FirstFailure(bytes: seq<u8>, pointers: seq<u32>, isRle: bool, i: nat)
    requires i < |pointers| && FramesSpec(bytes, pointers[..i], isRle).Success?
    requires FrameSpec(bytes, pointers[i], isRle).Failure?
    ensures FramesSpec(bytes, pointers, isRle) == Failure(FrameSpec(bytes, pointers[i], isRle).error)
    decreases |pointers|
  {
    if i + 1 < |pointers| {
      var init := pointers[..|pointers| - 1];
      assert init[..i] == pointers[..i] && init[i] == pointers[i];
      FirstFailure(bytes, init, isRle, i);
    } else {
      assert pointers[..|pointers| - 1] == pointers[..i];
    }
  }

  /**
   * A successful read has exactly frameCount frames, frame k being the frame at
   * the k-th offset of the table. Offsets are taken as they are: two entries
   * with the same offset give the same frame.
   */
  lemma {:induction false} ReadShape(bytes: seq<u8>)
    ensures ReadSpec(bytes).Success? ==>
      var header := U32At(bytes, 0);
      var frames := ReadSpec(bytes).value.frames;
      && |frames| == FrameCount(header)
      && 4 + 4 * FrameCount(header) <= |bytes|
      && (forall k :: 0 <= k < |frames| ==>
            FrameSpec(bytes, U32At(bytes, 4 + 4 * k), IsRle(header)) == Success(frames[k]))
      && (forall j, k :: 0 <= j < |frames| && 0 <= k < |frames| && U32At(bytes, 4 + 4 * j) == U32At(bytes, 4 + 4 * k) ==>
            frames[j] == frames[k])
  {
    if ReadSpec(bytes).Success? {
      var header := U32At(bytes, 0);
      var pointers := U32s(bytes, 4, FrameCount(header));
      var frames := ReadSpec(bytes).value.frames;
      forall k | 0 <= k < |frames| ensures FrameSpec(bytes, U32At(bytes, 4 + 4 * k), IsRle(header)) == Success(frames[k]) {
        assert pointers[k] == U32At(bytes, 4 + 4 * k);
      }
    }
  }

  /**
   * A frame is its u32 width and height at the offset and width * height
   * pixels (modulo 2^32): the RLE stream from offset + 8 decoded into zeros,
   * or the raw words from offset + 8.
   */
  lemma {:induction false} FrameShape(bytes: seq<u8>, pointer: u32, isRle: bool)
    ensures FrameSpec(bytes, pointer, isRle).Success? ==>
      var f := FrameSpec(bytes, pointer, isRle).value;
      && pointer + 8 <= |bytes|
      && f.width == U32At(bytes, pointer) && f.height == U32At(bytes, pointer + 4)
      && |f.pixels| == MulU32(f.width, f.height)
      && (isRle ==> Rle.Decode16Spec(bytes, pointer + 8, Rle.Repeat(0, |f.pixels|)) == Success(f.pixels))
      && (!isRle ==> pointer + 8 + 2 * |f.pixels| <= |bytes| && f.pixels == U16s(bytes, pointer + 8, |f.pixels|))
  {
    if pointer <= MaxPosition && pointer + 8 <= |bytes| {
      var count := MulU32(U32At(bytes, pointer), U32At(bytes, pointer + 4));
      Rle.Decode16Length(bytes, pointer + 8, Rle.Repeat(0, count));
    }
  }

  /** Bit 30 of the header changes neither the frame count nor the RLE flag. */
  lemma {:induction false} Bit30Ignored(header: u32)
    requires header % 0x8000_0000 < 0x4000_0000
    ensures FrameCount(header + 0x4000_0000) == FrameCount(header)
    ensures IsRle(header + 0x4000_0000) == IsRle(header)
  {
  }
}
