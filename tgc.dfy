/**
 * TGC images: a u16 width, a u16 height, then an RLE-compressed frame of
 * ARGB1555 pixels, and a 32-bit trailer of unknown meaning.
 */
module Tgc {
  import opened Bytes
  import Rle

  datatype Tgc = Tgc(width: int, height: int, pixels: seq<u16>, trailer: u32)

  /**
   * width * height as a C# int: the product of two u16s wraps to a negative
   * value from 2^31 on, and allocating an array of that length overflows.
   */
  function PixelCount(width: u16, height: u16): (count: int)
    ensures count >= 0 <==> width * height < 0x8000_0000
    ensures count >= 0 ==> count == width * height
  {
    ProductFits(width, height);
    var p := width * height;
    if p < 0x8000_0000 then p else p - 0x1_0000_0000
  }

  /** The product of two u16s fits in 32 bits. */
  lemma {:induction false} ProductFits(width: u16, height: u16)
    ensures 0 <= width * height < 0x1_0000_0000
  {
    var slack: nat := 0xFFFF - width;
    assert 0 <= width * height && 0 <= slack * height;
    assert width * height + slack * height == 0xFFFF * height;
  }

  /**
   * Tgc.Read on the whole file. The RLE stream is decoded from offset 4 out of
   * the byte array itself, so the reader is still at 4 afterwards: the skipped
   * "end marker" is bytes 4..7 and the trailer is the u32 at offset 8.
   */
  function ReadSpec(bytes: seq<u8>): Result<Tgc>
  {
    if |bytes| < 4 then Failure(EndOfStream)
    else
      var width, height := U16At(bytes, 0), U16At(bytes, 2);
      var count := PixelCount(width, height);
      if count < 0 then Failure(Overflow)
      else
        var pixels :- Rle.Decode16Spec(bytes, 4, Rle.Repeat(0, count));
        if |bytes| < 12 then Failure(EndOfStream)
        else Success(Tgc(width, height, pixels, U32At(bytes, 8)))
  }

  /** Tgc.Read */
  method Read(bytes: seq<u8>) returns (r: Result<Tgc>)
    ensures r == ReadSpec(bytes)
  {
    var reader := new Reader(bytes);
    var width :- reader.ReadU16();
    var height :- reader.ReadU16();

    var count := PixelCount(width, height);
    if count < 0 {
      return Failure(Overflow);
    }
    var pixels := new u16[count](_ => 0);
    assert pixels[..] == Rle.Repeat(0, count);
    var decoded :- Rle.Decode16(bytes, reader.pos, pixels);
    var marker :- reader.ReadU32();  // skip RLE end marker

    var trailer :- reader.ReadU32();
    return Success(Tgc(width, height, pixels[..], trailer));
  }

  /**
   * Read succeeds exactly when the buffer holds the trailer (12 bytes), the
   * pixel count fits in an int and the RLE stream decodes into the pixels.
   * Width and height are then the u16s at offsets 0 and 2, the trailer the u32
   * at offset 8, and the pixels what the RLE stream from offset 4 decodes to in
   * a zeroed array of width * height words.
   */
  lemma {:induction false} ReadFields(bytes: seq<u8>)
    ensures ReadSpec(bytes).Success? <==>
      && |bytes| >= 12
      && U16At(bytes, 0) * U16At(bytes, 2) < 0x8000_0000
      && Rle.Decode16Spec(bytes, 4, Rle.Repeat(0, U16At(bytes, 0) * U16At(bytes, 2))).Success?
    ensures ReadSpec(bytes).Success? ==>
      var t := ReadSpec(bytes).value;
      && |bytes| >= 12
      && t.width == U16At(bytes, 0) && t.height == U16At(bytes, 2)
      && t.trailer == U32At(bytes, 8)
      && t.width * t.height < 0x8000_0000
      && Rle.Decode16Spec(bytes, 4, Rle.Repeat(0, t.width * t.height)) == Success(t.pixels)
      && |t.pixels| == t.width * t.height
  {
    if |bytes| >= 4 {
      var count := PixelCount(U16At(bytes, 0), U16At(bytes, 2));
      if count >= 0 {
        Rle.Decode16Length(bytes, 4, Rle.Repeat(0, count));
      }
    }
  }
}
