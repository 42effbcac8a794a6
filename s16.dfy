/**
 * S16 sprites: a u32 header (frame count in the low 30 bits), a table of frame
 * offsets, and at each offset a u32 width, a u32 height, a u16 palette length,
 * that many ARGB1555 palette words, then width * height palette indices (one
 * byte per pixel) and width * height alpha values (one byte per pixel).
 */
module S16 {
  import opened Bytes

  datatype S16Frame = S16Frame(width: u32, height: u32, palette: seq<u16>, colorIndices: seq<u8>, alpha: seq<u8>)

  datatype S16 = S16(frames: seq<S16Frame>)

  /** header & 0x3FFFFFFF; the two top bits carry nothing here. */
  function FrameCount(header: u32): nat { header % 0x4000_0000 }

  /** The frame at byte offset pointer; every read past the end is EndOfStream. */
  function FrameSpec(bytes: seq<u8>, pointer: u32): Result<S16Frame>
  {
    if pointer > MaxPosition then Failure(ArgumentOutOfRange)
    else if pointer + 10 > |bytes| then Failure(EndOfStream)
    else
      var width, height, paletteLength := U32At(bytes, pointer), U32At(bytes, pointer + 4), U16At(bytes, pointer + 8);
      var count := MulU32(width, height);
      var indices := pointer + 10 + 2 * paletteLength;
      if indices + 2 * count > |bytes| then Failure(EndOfStream)
      else
        Success(S16Frame(width, height, U16s(bytes, pointer + 10, paletteLength),
                         bytes[indices..indices + count], bytes[indices + count..indices + 2 * count]))
  }

  /** The frames at the given offsets, in order; the first frame that fails fails them all. */
  function FramesSpec(bytes: seq<u8>, pointers: seq<u32>): (r: Result<seq<S16Frame>>)
    ensures r.Success? ==> |r.value| == |pointers|
    ensures r.Success? ==> forall k :: 0 <= k < |pointers| ==> FrameSpec(bytes, pointers[k]) == Success(r.value[k])
    decreases |pointers|
  {
    if pointers == [] then Success([])
    else
      var init :- FramesSpec(bytes, pointers[..|pointers| - 1]);
      var last :- FrameSpec(bytes, pointers[|pointers| - 1]);
      Success(init + [last])
  }

  /** S16.Read on the whole file. */
  function ReadSpec(bytes: seq<u8>): Result<S16>
  {
    if |bytes| < 4 then Failure(EndOfStream)
    else
      var count := FrameCount(U32At(bytes, 0));
      if 4 + 4 * count > |bytes| then Failure(EndOfStream)
      else
        var frames :- FramesSpec(bytes, U32s(bytes, 4, count));
        Success(S16(frames))
  }

  /** S16.Read: the header, the offset table, then every frame in table order. */
  method Read(bytes: seq<u8>) returns (r: Result<S16>)
    ensures r == ReadSpec(bytes)
  {
    var reader := new Reader(bytes);
    var header :- reader.ReadU32();
    var frameCount := FrameCount(header);

    var framePointers := new u32[frameCount];
    var i := 0;
    while i < frameCount
      invariant i <= frameCount && reader.pos == 4 + 4 * i <= |bytes|
      invariant forall t :: 0 <= t < i ==> framePointers[t] == U32At(bytes, 4 + 4 * t)
    {
      var pointer := reader.ReadU32();
      if pointer.Failure? {
        assert 4 + 4 * frameCount > |bytes|;
        return Failure(pointer.error);
      }
      framePointers[i] := pointer.value;
      i := i + 1;
    }
    assert framePointers[..] == U32s(bytes, 4, frameCount);

    var frames :- ReadFrames(reader, framePointers);
    return Success(S16(frames));
  }

  /** The frame loop of S16.Read: every frame of the table, in order, into a fresh array. */
  method ReadFrames(reader: Reader, framePointers: array<u32>) returns (r: Result<seq<S16Frame>>)
    modifies reader
    ensures r == FramesSpec(reader.data, framePointers[..])
  {
    ghost var pointers := framePointers[..];
    var frames := new S16Frame[framePointers.Length];
    var i := 0;
    while i < framePointers.Length
      invariant i <= framePointers.Length && framePointers[..] == pointers
      invariant FramesSpec(reader.data, pointers[..i]) == Success(frames[..i])
    {
      var frame := ReadFrame(reader, framePointers[i]);
      assert pointers[..i + 1][..i] == pointers[..i];
      if frame.Failure? {
        FirstFailure(reader.data, pointers, i);
        return Failure(frame.error);
      }
      frames[i] := frame.value;
      i := i + 1;
      assert frames[..i] == frames[..i - 1] + [frame.value];
    }
    assert pointers[..i] == pointers && frames[..i] == frames[..];
    return Success(frames[..]);
  }

  /** One turn of the frame loop: seek to the frame, read its header, palette, indices and alpha. */
  method ReadFrame(reader: Reader, pointer: u32) returns (r: Result<S16Frame>)
    modifies reader
    ensures r == FrameSpec(reader.data, pointer)
  {
    var ok :- reader.Seek(pointer);
    var width :- reader.ReadU32();
    var height :- reader.ReadU32();

    var paletteLength :- reader.ReadU16();
    var palette :- ReadPalette(reader, paletteLength);

    var count := MulU32(width, height);
    var colorIndices :- ReadBytes(reader, count);
    var alpha :- ReadBytes(reader, count);
    return Success(S16Frame(width, height, palette, colorIndices, alpha));
  }

  /** The palette loop of the frame: count u16s from the reader into a fresh array. */
  method ReadPalette(reader: Reader, count: nat) returns (r: Result<seq<u16>>)
    requires reader.pos <= |reader.data|
    modifies reader
    ensures old(reader.pos) + 2 * count <= |reader.data| ==>
      r == Success(U16s(reader.data, old(reader.pos), count)) && reader.pos == old(reader.pos) + 2 * count
    ensures old(reader.pos) + 2 * count > |reader.data| ==> r == Failure(EndOfStream)
  {
    var palette := new u16[count];
    ghost var start := reader.pos;
    var k := 0;
    while k < count
      invariant k <= count && reader.pos == start + 2 * k <= |reader.data|
      invariant forall t :: 0 <= t < k ==> palette[t] == U16At(reader.data, start + 2 * t)
    {
      var color :- reader.ReadU16();
      palette[k] := color;
      k := k + 1;
    }
    assert palette[..] == U16s(reader.data, start, count);
    return Success(palette[..]);
  }

  /** A byte loop of the frame: count bytes from the reader into a fresh array. */
  method ReadBytes(reader: Reader, count: nat) returns (r: Result<seq<u8>>)
    requires reader.pos <= |reader.data|
    modifies reader
    ensures old(reader.pos) + count <= |reader.data| ==>
      r == Success(reader.data[old(reader.pos)..old(reader.pos) + count]) && reader.pos == old(reader.pos) + count
    ensures old(reader.pos) + count > |reader.data| ==> r == Failure(EndOfStream)
  {
    var bytes := new u8[count];
    ghost var start := reader.pos;
    var k := 0;
    while k < count
      invariant k <= count && reader.pos == start + k <= |reader.data|
      invariant forall t :: 0 <= t < k ==> bytes[t] == reader.data[start + t]
    {
      var b :- reader.ReadU8();
      bytes[k] := b;
      k := k + 1;
    }
    assert bytes[..] == reader.data[start..start + count];
    return Success(bytes[..]);
  }

  /** When frame i is the first that fails, the whole table fails with its error. */
  lemma {:induction false} FirstFailure(bytes: seq<u8>, pointers: seq<u32>, i: nat)
    requires i < |pointers| && FramesSpec(bytes, pointers[..i]).Success?
    requires FrameSpec(bytes, pointers[i]).Failure?
    ensures FramesSpec(bytes, pointers) == Failure(FrameSpec(bytes, pointers[i]).error)
    decreases |pointers|
  {
    if i + 1 < |pointers| {
      var init := pointers[..|pointers| - 1];
      assert init[..i] == pointers[..i] && init[i] == pointers[i];
      FirstFailure(bytes, init, i);
    } else {
      assert pointers[..|pointers| - 1] == pointers[..i];
    }
  }

  /**
   * A successful read has exactly frameCount frames, frame k being the frame at
   * the k-th offset of the table.
   */
  lemma {:induction false} ReadShape(bytes: seq<u8>)
    ensures ReadSpec(bytes).Success? ==>
      var header := U32At(bytes, 0);
      var frames := ReadSpec(bytes).value.frames;
      && |frames| == FrameCount(header)
      && 4 + 4 * FrameCount(header) <= |bytes|
      && (forall k :: 0 <= k < |frames| ==> FrameSpec(bytes, U32At(bytes, 4 + 4 * k)) == Success(frames[k]))
  {
    if ReadSpec(bytes).Success? {
      var header := U32At(bytes, 0);
      var pointers := U32s(bytes, 4, FrameCount(header));
      var frames := ReadSpec(bytes).value.frames;
      forall k | 0 <= k < |frames| ensures FrameSpec(bytes, U32At(bytes, 4 + 4 * k)) == Success(frames[k]) {
        assert pointers[k] == U32At(bytes, 4 + 4 * k);
      }
    }
  }

  /**
   * A frame at an offset the stream accepts reads exactly when its
   * 10 + 2 * paletteLength + 2 * width * height bytes fit, and then it has one
   * palette index and one alpha value per pixel (width * height modulo 2^32),
   * both stored raw, the alpha plane right after the indices.
   */
  lemma {:induction false} FrameShape(bytes: seq<u8>, pointer: u32)
    requires pointer <= MaxPosition && pointer + 10 <= |bytes|
    ensures
      var width, height, paletteLength := U32At(bytes, pointer), U32At(bytes, pointer + 4), U16At(bytes, pointer + 8);
      var count := MulU32(width, height);
      var indices := pointer + 10 + 2 * paletteLength;
      && (FrameSpec(bytes, pointer).Success? <==> indices + 2 * count <= |bytes|)
      && (FrameSpec(bytes, pointer).Success? ==>
            var f := FrameSpec(bytes, pointer).value;
            && |f.palette| == paletteLength && |f.colorIndices| == count && |f.alpha| == count
            && (forall t :: 0 <= t < paletteLength ==> f.palette[t] == U16At(bytes, pointer + 10 + 2 * t))
            && (forall t :: 0 <= t < count ==> f.colorIndices[t] == bytes[indices + t] && f.alpha[t] == bytes[indices + count + t]))
  {
  }
}
