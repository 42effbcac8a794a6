/**
 * Fixed-width integers, little-endian access to a byte buffer, the failures a
 * decode can end in, and the stream cursor (.NET's MemoryStream wrapped in a
 * BinaryReader) that every loader reads through.
 */
module Bytes {

  type u8 = x: int | 0 <= x < 0x100
  type u16 = x: int | 0 <= x < 0x1_0000
  type u32 = x: int | 0 <= x < 0x1_0000_0000
  type i16 = x: int | -0x8000 <= x < 0x8000

  /** The exceptions .NET raises while decoding, as values. */
  datatype Error =
    | EndOfStream          // a BinaryReader read ran past the end of its stream
    | IndexOutOfRange      // a store past the end of an output array
    | ArgumentOutOfRange   // a stream position or an array-segment index out of range
    | Argument             // an array segment that does not fit inside its array
    | Overflow             // an array allocated with a negative length
    | BadMagic(expected: seq<u8>, actual: seq<u8>, offset: int)  // a chunk tag that does not match

  datatype Result<+T> = Success(value: T) | Failure(error: Error) {
    predicate IsFailure() { Failure? }
    function PropagateFailure<U>(): Result<U> requires Failure? { Failure(error) }
    function Extract(): T requires Success? { value }
  }

  datatype Option<+T> = None | Some(value: T)

  /** The little-endian u16 at byte offset pos. */
  function U16At(b: seq<u8>, pos: nat): u16
    requires pos + 2 <= |b|
  {
    b[pos] as int + 0x100 * b[pos + 1] as int
  }

  /** The little-endian u32 at byte offset pos: two little-endian u16s, low half first. */
  function U32At(b: seq<u8>, pos: nat): u32
    requires pos + 4 <= |b|
  {
    U16At(b, pos) + 0x1_0000 * U16At(b, pos + 2)
  }

  /** The two little-endian bytes of w; U16At reads them back. */
  function Le16(w: u16): (r: seq<u8>)
    ensures |r| == 2 && U16At(r, 0) == w
  {
    [w % 0x100, w / 0x100]
  }

  /** The four little-endian bytes of w; U32At reads them back. */
  function Le32(w: u32): (r: seq<u8>)
    ensures |r| == 4 && U32At(r, 0) == w
  {
    var lo, hi := Le16(w % 0x1_0000), Le16(w / 0x1_0000);
    assert (lo + hi)[..2] == lo && (lo + hi)[2..] == hi;
    U16AtSlice(lo + hi, 0, w % 0x1_0000);
    U16AtSlice(lo + hi, 2, w / 0x1_0000);
    lo + hi
  }

  /** U16At only looks at its two bytes. */
  lemma {:induction false} U16AtSlice(b: seq<u8>, pos: nat, w: u16)
    requires pos + 2 <= |b| && b[pos..pos + 2] == Le16(w)
    ensures U16At(b, pos) == w
  {
    assert b[pos] == b[pos..pos + 2][0] && b[pos + 1] == b[pos..pos + 2][1];
  }

  /** The ASCII bytes of a four-letter tag. */
  function Tag(s: string): seq<u8>
    requires |s| == 4 && forall k :: 0 <= k < 4 ==> s[k] as int < 0x80
  {
    seq(4, k requires 0 <= k < 4 => s[k] as int)
  }

  /** The n little-endian u16s starting at byte pos. */
  function U16s(b: seq<u8>, pos: nat, n: nat): (ws: seq<u16>)
    requires pos + 2 * n <= |b|
    ensures |ws| == n && forall k :: 0 <= k < n ==> ws[k] == U16At(b, pos + 2 * k)
  {
    seq(n, k requires 0 <= k < n => U16At(b, pos + 2 * k))
  }

  /** The n little-endian u32s starting at byte pos: a table of offsets. */
  function U32s(b: seq<u8>, pos: nat, n: nat): (ws: seq<u32>)
    requires pos + 4 * n <= |b|
    ensures |ws| == n && forall k :: 0 <= k < n ==> ws[k] == U32At(b, pos + 4 * k)
  {
    seq(n, k requires 0 <= k < n => U32At(b, pos + 4 * k))
  }

  /** a * b on two uints: the product wraps modulo 2^32. */
  function MulU32(a: u32, b: u32): u32
  {
    (a * b) % 0x1_0000_0000
  }

  /** The largest value MemoryStream accepts for its Position (int.MaxValue). */
  const MaxPosition: nat := 0x7FFF_FFFF

  /**
   * A BinaryReader over a MemoryStream on a byte array: the array is fixed, the
   * position moves. The position may lie past the end (a seek may put it there);
   * reads from there fail.
   */
  class Reader {
    const data: seq<u8>
    var pos: nat

    constructor (data: seq<u8>)
      ensures this.data == data && pos == 0
    {
      this.data := data;
      pos := 0;
    }

    /** Position < Length, the loop guard of the decoders. */
    predicate HasMore()
      reads this
    {
      pos < |data|
    }

    /** Setting Position; values above int.MaxValue are refused. */
    method Seek(position: nat) returns (r: Result<()>)
      modifies this
      ensures position <= MaxPosition ==> r == Success(()) && pos == position
      ensures position > MaxPosition ==> r == Failure(ArgumentOutOfRange) && pos == old(pos)
    {
      if position > MaxPosition {
        return Failure(ArgumentOutOfRange);
      }
      pos := position;
      return Success(());
    }

    method ReadU8() returns (r: Result<u8>)
      modifies this
      ensures old(pos) + 1 <= |data| ==> r == Success(data[old(pos)]) && pos == old(pos) + 1
      ensures old(pos) + 1 > |data| ==> r == Failure(EndOfStream)
    {
      if pos + 1 > |data| {
        return Failure(EndOfStream);
      }
      r := Success(data[pos]);
      pos := pos + 1;
    }

    method ReadU16() returns (r: Result<u16>)
      modifies this
      ensures old(pos) + 2 <= |data| ==> r == Success(U16At(data, old(pos))) && pos == old(pos) + 2
      ensures old(pos) + 2 > |data| ==> r == Failure(EndOfStream)
    {
      if pos + 2 > |data| {
        return Failure(EndOfStream);
      }
      r := Success(U16At(data, pos));
      pos := pos + 2;
    }

    /** ReadUInt32, and also ReadInt32 and ReadSingle taken as their raw four bytes. */
    method ReadU32() returns (r: Result<u32>)
      modifies this
      ensures old(pos) + 4 <= |data| ==> r == Success(U32At(data, old(pos))) && pos == old(pos) + 4
      ensures old(pos) + 4 > |data| ==> r == Failure(EndOfStream)
    {
      if pos + 4 > |data| {
        return Failure(EndOfStream);
      }
      r := Success(U32At(data, pos));
      pos := pos + 4;
    }

    /**
     * ReadChars(4) on ASCII data: up to four bytes, fewer when the stream ends
     * first; it never fails.
     */
    method ReadTag() returns (tag: seq<u8>)
      modifies this
      ensures tag == TagAt(data, old(pos))
      ensures pos == old(pos) + |tag|
    {
      tag := TagAt(data, pos);
      pos := pos + |tag|;
    }
  }

  /** The bytes ReadChars(4) returns at position pos. */
  function TagAt(b: seq<u8>, pos: nat): (tag: seq<u8>)
    ensures |tag| <= 4
    ensures pos + 4 <= |b| ==> tag == b[pos..pos + 4]
    ensures pos + 4 > |b| ==> |tag| == if pos < |b| then |b| - pos else 0
  {
    if pos >= |b| then [] else if pos + 4 <= |b| then b[pos..pos + 4] else b[pos..]
  }
}
