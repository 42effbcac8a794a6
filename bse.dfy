/**
 * BSE meshes: a chain of sections, each opened by a four-byte ASCII tag that
 * must match, read through one cursor: BSE1 (poly, vertex and frame counts),
 * VERT, POLY, COLR, UVS0, FLAG, then FRMS when there are frames, then the
 * optional SCAL and AUVS sections probed near the end of the file. Floats are
 * kept as their raw four bytes (IEEE arithmetic is not part of the model).
 */
module Bse {
  import opened Bytes

  /** A vertex position: the raw bits of three floats. */
  datatype BseVert = BseVert(x: u32, y: u32, z: u32)

  /** A triangle: eight little-endian u32s in file order. */
  datatype BseTri = BseTri(v1: u32, v2: u32, v3: u32, unk4: u32, bseIndex: u32, polyIdx: u32, unk7: u32, unk8: u32)

  datatype BseRgb = BseRgb(r: u8, g: u8, b: u8)

  datatype BseTriColor = BseTriColor(v1: BseRgb, v2: BseRgb, v3: BseRgb)

  /** A texture coordinate: the raw bits of two floats. */
  datatype BseUv = BseUv(u: u32, v: u32)

  datatype BseTriUv = BseTriUv(v1: BseUv, v2: BseUv, v3: BseUv)

  datatype BseFrame = BseFrame(verts: seq<BseVert>)

  datatype BseUvFrame = BseUvFrame(uvs: seq<BseTriUv>)

  /** The decoded mesh; the absent optional sections (null in the source) are None. */
  datatype Bse = Bse(
    numPoly: u32, numVerts: u32, numFrames: u32,
    vertices: seq<BseVert>, polys: seq<BseTri>, colors: seq<BseTriColor>, uvs: seq<BseTriUv>, flags: seq<u32>,
    frames: Option<seq<BseFrame>>, scale: Option<u32>, uvFrames: Option<seq<BseUvFrame>>)

  const Bse1Tag: seq<u8> := Tag("BSE1")
  const VertTag: seq<u8> := Tag("VERT")
  const PolyTag: seq<u8> := Tag("POLY")
  const ColrTag: seq<u8> := Tag("COLR")
  const Uvs0Tag: seq<u8> := Tag("UVS0")
  const FlagTag: seq<u8> := Tag("FLAG")
  const FrmsTag: seq<u8> := Tag("FRMS")
  const ScalTag: seq<u8> := Tag("SCAL")
  const AuvsTag: seq<u8> := Tag("AUVS")

  // ---------------------------------------------------------------------------
  // Records and arrays of records, as they lie in the file

  function VertAt(b: seq<u8>, pos: nat): BseVert
    requires pos + 12 <= |b|
  {
    BseVert(U32At(b, pos), U32At(b, pos + 4), U32At(b, pos + 8))
  }

  function TriAt(b: seq<u8>, pos: nat): BseTri
    requires pos + 32 <= |b|
  {
    BseTri(U32At(b, pos), U32At(b, pos + 4), U32At(b, pos + 8), U32At(b, pos + 12),
           U32At(b, pos + 16), U32At(b, pos + 20), U32At(b, pos + 24), U32At(b, pos + 28))
  }

  function RgbAt(b: seq<u8>, pos: nat): BseRgb
    requires pos + 3 <= |b|
  {
    BseRgb(b[pos], b[pos + 1], b[pos + 2])
  }

  function TriColorAt(b: seq<u8>, pos: nat): BseTriColor
    requires pos + 9 <= |b|
  {
    BseTriColor(RgbAt(b, pos), RgbAt(b, pos + 3), RgbAt(b, pos + 6))
  }

  function UvAt(b: seq<u8>, pos: nat): BseUv
    requires pos + 8 <= |b|
  {
    BseUv(U32At(b, pos), U32At(b, pos + 4))
  }

  function TriUvAt(b: seq<u8>, pos: nat): BseTriUv
    requires pos + 24 <= |b|
  {
    BseTriUv(UvAt(b, pos), UvAt(b, pos + 8), UvAt(b, pos + 16))
  }

  function Verts(b: seq<u8>, pos: nat, n: nat): (vs: seq<BseVert>)
    requires pos + 12 * n <= |b|
    ensures |vs| == n && forall k :: 0 <= k < n ==> vs[k] == VertAt(b, pos + 12 * k)
  {
    seq(n, k requires 0 <= k < n => VertAt(b, pos + 12 * k))
  }

  function Tris(b: seq<u8>, pos: nat, n: nat): (ts: seq<BseTri>)
    requires pos + 32 * n <= |b|
    ensures |ts| == n && forall k :: 0 <= k < n ==> ts[k] == TriAt(b, pos + 32 * k)
  {
    seq(n, k requires 0 <= k < n => TriAt(b, pos + 32 * k))
  }

  function TriColors(b: seq<u8>, pos: nat, n: nat): (cs: seq<BseTriColor>)
    requires pos + 9 * n <= |b|
    ensures |cs| == n && forall k :: 0 <= k < n ==> cs[k] == TriColorAt(b, pos + 9 * k)
  {
    seq(n, k requires 0 <= k < n => TriColorAt(b, pos + 9 * k))
  }

  function TriUvs(b: seq<u8>, pos: nat, n: nat): (us: seq<BseTriUv>)
    requires pos + 24 * n <= |b|
    ensures |us| == n && forall k :: 0 <= k < n ==> us[k] == TriUvAt(b, pos + 24 * k)
  {
    seq(n, k requires 0 <= k < n => TriUvAt(b, pos + 24 * k))
  }

  /** The bytes taken by count blocks of size bytes each. */
  function Blocks(count: nat, size: nat): nat { count * size }

  /** count frames of n vertices each, one after the other. */
  function VertFrames(b: seq<u8>, pos: nat, count: nat, n: nat): (fs: seq<BseFrame>)
    requires pos + Blocks(count, 12 * n) <= |b|
    ensures |fs| == count
    decreases count
  {
    if count == 0 then []
    else
      assert Blocks(count - 1, 12 * n) + 12 * n == Blocks(count, 12 * n);
      VertFrames(b, pos, count - 1, n) + [BseFrame(Verts(b, pos + Blocks(count - 1, 12 * n), n))]
  }

  /** count UV frames of n triangles each, one after the other. */
  function UvFrames(b: seq<u8>, pos: nat, count: nat, n: nat): (fs: seq<BseUvFrame>)
    requires pos + Blocks(count, 24 * n) <= |b|
    ensures |fs| == count
    decreases count
  {
    if count == 0 then []
    else
      assert Blocks(count - 1, 24 * n) + 24 * n == Blocks(count, 24 * n);
      UvFrames(b, pos, count - 1, n) + [BseUvFrame(TriUvs(b, pos + Blocks(count - 1, 24 * n), n))]
  }

  // ---------------------------------------------------------------------------
  // The sections: every read that runs out of bytes is EndOfStream

  /** AssertMagic at pos: the position after the tag, or the mismatch with the offset where the tag began. */
  function MagicSpec(b: seq<u8>, pos: nat, magic: seq<u8>): (r: Result<nat>)
    requires |magic| == 4
  {
    var tag := TagAt(b, pos);
    if tag == magic then Success(pos + 4) else Failure(BadMagic(magic, tag, pos + |tag| - 4))
  }

  /**
   * A section: its tag at pos, then size bytes of records. The position of the
   * records when both are there; a short run of records ends the stream.
   */
  function Section(b: seq<u8>, pos: nat, magic: seq<u8>, size: nat): (r: Result<nat>)
    requires |magic| == 4
    ensures r.Success? ==> TagAt(b, pos) == magic && r.value == pos + 4 && r.value + size <= |b|
  {
    var p :- MagicSpec(b, pos, magic);
    if p + size > |b| then Failure(EndOfStream) else Success(p)
  }

  /**
   * The FRMS section as a successful read leaves it: absent exactly when
   * numFrames is 0, otherwise its tag at pos and nf frames of nv vertices right after.
   */
  predicate FramesLaid(b: seq<u8>, pos: nat, nf: nat, nv: nat, frames: Option<seq<BseFrame>>)
  {
    && (frames.None? <==> nf == 0)
    && (nf != 0 ==>
          && TagAt(b, pos) == FrmsTag && pos + 4 + Blocks(nf, 12 * nv) <= |b|
          && frames == Some(VertFrames(b, pos + 4, nf, nv)))
  }

  /** The end of the FLAG section when the sections from VERT at pos hold m's counts of records. */
  function FlagsEnd(pos: nat, m: Bse): nat
  {
    pos + 4 + 12 * m.numVerts + 4 + 32 * m.numPoly + 4 + 9 * m.numPoly + 4 + 24 * m.numPoly + 4 + 4 * m.numPoly
  }

  /** Where the optional sections are probed: right after the flags without frames, else after the FRMS section. */
  function FramesEnd(pos: nat, nf: nat, nv: nat): nat
  {
    if nf == 0 then pos else pos + 4 + Blocks(nf, 12 * nv)
  }

  /** Where the AUVS probe starts: past a SCAL section, past any other four-byte probe, or at pos when too little is left to probe. */
  function ProbeEnd(b: seq<u8>, pos: nat): nat
  {
    if pos < |b| - 4 then (if TagAt(b, pos) == ScalTag then pos + 8 else pos + 4) else pos
  }

  /** The scale as a successful read leaves it: present exactly when more than four bytes remain at pos and they start with SCAL, and then the u32 after the tag. */
  predicate ScalLaid(b: seq<u8>, pos: nat, scale: Option<u32>)
  {
    && (scale.Some? <==> pos < |b| - 4 && TagAt(b, pos) == ScalTag)
    && (scale.Some? ==> pos + 8 <= |b| && scale.value == U32At(b, pos + 4))
  }

  /** The UV frames likewise: present exactly when AUVS is probed at pos, and then nf frames of np triangle UVs right after the tag. */
  predicate AuvsLaid(b: seq<u8>, pos: nat, nf: nat, np: nat, uvFrames: Option<seq<BseUvFrame>>)
  {
    && (uvFrames.Some? <==> pos < |b| - 4 && TagAt(b, pos) == AuvsTag)
    && (uvFrames.Some? ==> pos + 4 + Blocks(nf, 24 * np) <= |b| && uvFrames.value == UvFrames(b, pos + 4, nf, np))
  }

  // How a successful read lays out the file from one section on, given the mesh
  // m read before it and the mesh r it ends with: the tag of the section at pos,
  // its records right after it, put into their field of the mesh, and the next
  // section laid out right after them.

  /**
   * From FRMS on only the frames, the scale and the UV frames are set: the
   * frames at pos, then the SCAL probe where they end and the AUVS probe where that ends.
   */
  predicate FrmsLaid(b: seq<u8>, pos: nat, m: Bse, r: Bse)
  {
    var scalAt := FramesEnd(pos, m.numFrames, m.numVerts);
    && r.(frames := m.frames, scale := m.scale, uvFrames := m.uvFrames) == m
    && FramesLaid(b, pos, m.numFrames, m.numVerts, r.frames)
    && ScalLaid(b, scalAt, r.scale)
    && AuvsLaid(b, ProbeEnd(b, scalAt), m.numFrames, m.numPoly, r.uvFrames)
  }

  predicate FlagLaid(b: seq<u8>, pos: nat, m: Bse, r: Bse)
  {
    && TagAt(b, pos) == FlagTag && pos + 4 + 4 * m.numPoly <= |b|
    && FrmsLaid(b, pos + 4 + 4 * m.numPoly, m.(flags := U32s(b, pos + 4, m.numPoly)), r)
  }

  predicate Uvs0Laid(b: seq<u8>, pos: nat, m: Bse, r: Bse)
  {
    && TagAt(b, pos) == Uvs0Tag && pos + 4 + 24 * m.numPoly <= |b|
    && FlagLaid(b, pos + 4 + 24 * m.numPoly, m.(uvs := TriUvs(b, pos + 4, m.numPoly)), r)
  }

  predicate ColrLaid(b: seq<u8>, pos: nat, m: Bse, r: Bse)
  {
    && TagAt(b, pos) == ColrTag && pos + 4 + 9 * m.numPoly <= |b|
    && Uvs0Laid(b, pos + 4 + 9 * m.numPoly, m.(colors := TriColors(b, pos + 4, m.numPoly)), r)
  }

  predicate PolyLaid(b: seq<u8>, pos: nat, m: Bse, r: Bse)
  {
    && TagAt(b, pos) == PolyTag && pos + 4 + 32 * m.numPoly <= |b|
    && ColrLaid(b, pos + 4 + 32 * m.numPoly, m.(polys := Tris(b, pos + 4, m.numPoly)), r)
  }

  predicate VertLaid(b: seq<u8>, pos: nat, m: Bse, r: Bse)
  {
    && TagAt(b, pos) == VertTag && pos + 4 + 12 * m.numVerts <= |b|
    && PolyLaid(b, pos + 4 + 12 * m.numVerts, m.(vertices := Verts(b, pos + 4, m.numVerts)), r)
  }

  /** The mesh before any section: the three counts of the header. */
  function Header(b: seq<u8>): Bse
    requires 16 <= |b|
  {
    Bse(U32At(b, 4), U32At(b, 8), U32At(b, 12), [], [], [], [], [], None, None, None)
  }

  /**
   * Bse.Read on the whole file: a successful read has the BSE1 tag at 0 and the
   * sections laid out from offset 16 (the Layout lemma spells them out).
   */
  function ReadSpec(b: seq<u8>): (r: Result<Bse>)
    ensures r.Success? ==> 16 <= |b| && TagAt(b, 0) == Bse1Tag && VertLaid(b, 16, Header(b), r.value)
  {
    var _ :- Section(b, 0, Bse1Tag, 12);
    VertFrom(b, Header(b), 16)
  }

  // The rest of Bse.Read from one section on, given the mesh read so far: the
  // section goes into its field of the mesh and the next section reads on.

  function VertFrom(b: seq<u8>, m: Bse, pos: nat): (r: Result<Bse>)
    ensures r.Success? ==> VertLaid(b, pos, m, r.value)
  {
    var _ :- Section(b, pos, VertTag, 12 * m.numVerts);
    PolyFrom(b, m.(vertices := Verts(b, pos + 4, m.numVerts)), pos + 4 + 12 * m.numVerts)
  }

  function PolyFrom(b: seq<u8>, m: Bse, pos: nat): (r: Result<Bse>)
    ensures r.Success? ==> PolyLaid(b, pos, m, r.value)
  {
    var _ :- Section(b, pos, PolyTag, 32 * m.numPoly);
    ColrFrom(b, m.(polys := Tris(b, pos + 4, m.numPoly)), pos + 4 + 32 * m.numPoly)
  }

  function ColrFrom(b: seq<u8>, m: Bse, pos: nat): (r: Result<Bse>)
    ensures r.Success? ==> ColrLaid(b, pos, m, r.value)
  {
    var _ :- Section(b, pos, ColrTag, 9 * m.numPoly);
    Uvs0From(b, m.(colors := TriColors(b, pos + 4, m.numPoly)), pos + 4 + 9 * m.numPoly)
  }

  function Uvs0From(b: seq<u8>, m: Bse, pos: nat): (r: Result<Bse>)
    ensures r.Success? ==> Uvs0Laid(b, pos, m, r.value)
  {
    var _ :- Section(b, pos, Uvs0Tag, 24 * m.numPoly);
    FlagFrom(b, m.(uvs := TriUvs(b, pos + 4, m.numPoly)), pos + 4 + 24 * m.numPoly)
  }

  function FlagFrom(b: seq<u8>, m: Bse, pos: nat): (r: Result<Bse>)
    ensures r.Success? ==> FlagLaid(b, pos, m, r.value)
  {
    var _ :- Section(b, pos, FlagTag, 4 * m.numPoly);
    FrmsFrom(b, m.(flags := U32s(b, pos + 4, m.numPoly)), pos + 4 + 4 * m.numPoly)
  }

  function FrmsFrom(b: seq<u8>, m: Bse, pos: nat): (r: Result<Bse>)
    ensures r.Success? ==> FrmsLaid(b, pos, m, r.value)
  {
    if m.numFrames == 0 then ScalFrom(b, m.(frames := None), pos)
    else
      var size := Blocks(m.numFrames, 12 * m.numVerts);
      var _ :- Section(b, pos, FrmsTag, size);
      ScalFrom(b, m.(frames := Some(VertFrames(b, pos + 4, m.numFrames, m.numVerts))), pos + 4 + size)
  }

  /**
   * The SCAL probe is taken only when more than four bytes remain, and consumes
   * its four bytes whatever they hold. It sets the scale and the UV frames only;
   * it fails only on a SCAL tag without its value or on a short AUVS section.
   */
  function ScalFrom(b: seq<u8>, m: Bse, pos: nat): (r: Result<Bse>)
    ensures r.Success? ==>
      && r.value.(scale := m.scale, uvFrames := m.uvFrames) == m
      && ScalLaid(b, pos, r.value.scale)
      && AuvsLaid(b, ProbeEnd(b, pos), m.numFrames, m.numPoly, r.value.uvFrames)
    ensures r.Failure? <==>
      || (pos < |b| - 4 && TagAt(b, pos) == ScalTag && pos + 8 > |b|)
      || (var q := ProbeEnd(b, pos); q < |b| - 4 && TagAt(b, q) == AuvsTag && q + 4 + Blocks(m.numFrames, 24 * m.numPoly) > |b|)
    ensures r.Failure? ==> r.error == EndOfStream
  {
    if pos < |b| - 4 then
      if TagAt(b, pos) != ScalTag then AuvsFrom(b, m.(scale := None), pos + 4)
      else if pos + 8 > |b| then Failure(EndOfStream)
      else AuvsFrom(b, m.(scale := Some(U32At(b, pos + 4))), pos + 8)
    else AuvsFrom(b, m.(scale := None), pos)
  }

  /**
   * The AUVS probe likewise: the UV frames are there exactly when more than four
   * bytes remain and they start with AUVS; anything after them is ignored.
   */
  function AuvsFrom(b: seq<u8>, m: Bse, pos: nat): (r: Result<Bse>)
    ensures r.Success? ==>
      && r.value.(uvFrames := m.uvFrames) == m
      && AuvsLaid(b, pos, m.numFrames, m.numPoly, r.value.uvFrames)
    ensures r.Failure? <==> pos < |b| - 4 && TagAt(b, pos) == AuvsTag && pos + 4 + Blocks(m.numFrames, 24 * m.numPoly) > |b|
  {
    if pos < |b| - 4 && TagAt(b, pos) == AuvsTag then
      var size := Blocks(m.numFrames, 24 * m.numPoly);
      if pos + 4 + size > |b| then Failure(EndOfStream)
      else Success(m.(uvFrames := Some(UvFrames(b, pos + 4, m.numFrames, m.numPoly))))
    else Success(m.(uvFrames := None))
  }

  // ---------------------------------------------------------------------------
  // The reader

  /** Bse.ReadMagic: four characters (bytes) from the cursor; fewer at the end of the stream. */
  method ReadMagic(reader: Reader) returns (magic: seq<u8>)
    modifies reader
    ensures magic == TagAt(reader.data, old(reader.pos)) && reader.pos == old(reader.pos) + |magic|
  {
    magic := reader.ReadTag();
  }

  /** Bse.AssertMagic: reads a tag and fails unless it is magic, reporting where the tag began. */
  method AssertMagic(reader: Reader, magic: seq<u8>) returns (r: Result<()>)
    requires |magic| == 4
    modifies reader
    ensures var spec := MagicSpec(reader.data, old(reader.pos), magic);
      && (r.Success? <==> spec.Success?) && (r.Failure? ==> r.error == spec.error)
      && (r.Success? ==> reader.pos == spec.value)
  {
    var readMagic := ReadMagic(reader);
    if readMagic != magic {
      return Failure(BadMagic(magic, readMagic, reader.pos - |magic|));
    }
    return Success(());
  }

  method ReadVert(reader: Reader) returns (r: Result<BseVert>)
    modifies reader
    ensures old(reader.pos) + 12 <= |reader.data| ==> r == Success(VertAt(reader.data, old(reader.pos))) && reader.pos == old(reader.pos) + 12
    ensures old(reader.pos) + 12 > |reader.data| ==> r == Failure(EndOfStream)
  {
    var x :- reader.ReadU32();
    var y :- reader.ReadU32();
    var z :- reader.ReadU32();
    return Success(BseVert(x, y, z));
  }

  method ReadTri(reader: Reader) returns (r: Result<BseTri>)
    modifies reader
    ensures old(reader.pos) + 32 <= |reader.data| ==> r == Success(TriAt(reader.data, old(reader.pos))) && reader.pos == old(reader.pos) + 32
    ensures old(reader.pos) + 32 > |reader.data| ==> r == Failure(EndOfStream)
  {
    var v1 :- reader.ReadU32();
    var v2 :- reader.ReadU32();
    var v3 :- reader.ReadU32();
    var unk4 :- reader.ReadU32();
    var bseIndex :- reader.ReadU32();
    var polyIdx :- reader.ReadU32();
    var unk7 :- reader.ReadU32();
    var unk8 :- reader.ReadU32();
    return Success(BseTri(v1, v2, v3, unk4, bseIndex, polyIdx, unk7, unk8));
  }

  method ReadRgb(reader: Reader) returns (r: Result<BseRgb>)
    modifies reader
    ensures old(reader.pos) + 3 <= |reader.data| ==> r == Success(RgbAt(reader.data, old(reader.pos))) && reader.pos == old(reader.pos) + 3
    ensures old(reader.pos) + 3 > |reader.data| ==> r == Failure(EndOfStream)
  {
    var red :- reader.ReadU8();
    var green :- reader.ReadU8();
    var blue :- reader.ReadU8();
    return Success(BseRgb(red, green, blue));
  }

  method ReadTriColor(reader: Reader) returns (r: Result<BseTriColor>)
    modifies reader
    ensures old(reader.pos) + 9 <= |reader.data| ==> r == Success(TriColorAt(reader.data, old(reader.pos))) && reader.pos == old(reader.pos) + 9
    ensures old(reader.pos) + 9 > |reader.data| ==> r == Failure(EndOfStream)
  {
    var c1 :- ReadRgb(reader);
    var c2 :- ReadRgb(reader);
    var c3 :- ReadRgb(reader);
    return Success(BseTriColor(c1, c2, c3));
  }

  method ReadUv(reader: Reader) returns (r: Result<BseUv>)
    modifies reader
    ensures old(reader.pos) + 8 <= |reader.data| ==> r == Success(UvAt(reader.data, old(reader.pos))) && reader.pos == old(reader.pos) + 8
    ensures old(reader.pos) + 8 > |reader.data| ==> r == Failure(EndOfStream)
  {
    var u :- reader.ReadU32();
    var v :- reader.ReadU32();
    return Success(BseUv(u, v));
  }

  method ReadTriUv(reader: Reader) returns (r: Result<BseTriUv>)
    modifies reader
    ensures old(reader.pos) + 24 <= |reader.data| ==> r == Success(TriUvAt(reader.data, old(reader.pos))) && reader.pos == old(reader.pos) + 24
    ensures old(reader.pos) + 24 > |reader.data| ==> r == Failure(EndOfStream)
  {
    var uv1 :- ReadUv(reader);
    var uv2 :- ReadUv(reader);
    var uv3 :- ReadUv(reader);
    return Success(BseTriUv(uv1, uv2, uv3));
  }

  /** The VERT loop (and each frame of the FRMS loop): n vertices. */
  method ReadVerts(reader: Reader, n: nat) returns (r: Result<seq<BseVert>>)
    requires reader.pos <= |reader.data|
    modifies reader
    ensures old(reader.pos) + 12 * n <= |reader.data| ==> r == Success(Verts(reader.data, old(reader.pos), n)) && reader.pos == old(reader.pos) + 12 * n
    ensures old(reader.pos) + 12 * n > |reader.data| ==> r == Failure(EndOfStream)
  {
    var verts := new BseVert[n];
    ghost var start := reader.pos;
    var i := 0;
    while i < n
      invariant i <= n && reader.pos == start + 12 * i <= |reader.data|
      invariant forall t :: 0 <= t < i ==> verts[t] == VertAt(reader.data, start + 12 * t)
    {
      var vert :- ReadVert(reader);
      verts[i] := vert;
      i := i + 1;
    }
    assert verts[..] == Verts(reader.data, start, n);
    return Success(verts[..]);
  }

  /** The POLY loop: n triangles. */
  method ReadTris(reader: Reader, n: nat) returns (r: Result<seq<BseTri>>)
    requires reader.pos <= |reader.data|
    modifies reader
    ensures old(reader.pos) + 32 * n <= |reader.data| ==> r == Success(Tris(reader.data, old(reader.pos), n)) && reader.pos == old(reader.pos) + 32 * n
    ensures old(reader.pos) + 32 * n > |reader.data| ==> r == Failure(EndOfStream)
  {
    var polys := new BseTri[n];
    ghost var start := reader.pos;
    var i := 0;
    while i < n
      invariant i <= n && reader.pos == start + 32 * i <= |reader.data|
      invariant forall t :: 0 <= t < i ==> polys[t] == TriAt(reader.data, start + 32 * t)
    {
      var poly :- ReadTri(reader);
      polys[i] := poly;
      i := i + 1;
    }
    assert polys[..] == Tris(reader.data, start, n);
    return Success(polys[..]);
  }

  /** The COLR loop: n triangle colours. */
  method ReadTriColors(reader: Reader, n: nat) returns (r: Result<seq<BseTriColor>>)
    requires reader.pos <= |reader.data|
    modifies reader
    ensures old(reader.pos) + 9 * n <= |reader.data| ==> r == Success(TriColors(reader.data, old(reader.pos), n)) && reader.pos == old(reader.pos) + 9 * n
    ensures old(reader.pos) + 9 * n > |reader.data| ==> r == Failure(EndOfStream)
  {
    var colors := new BseTriColor[n];
    ghost var start := reader.pos;
    var i := 0;
    while i < n
      invariant i <= n && reader.pos == start + 9 * i <= |reader.data|
      invariant forall t :: 0 <= t < i ==> colors[t] == TriColorAt(reader.data, start + 9 * t)
    {
      var color :- ReadTriColor(reader);
      colors[i] := color;
      i := i + 1;
    }
    assert colors[..] == TriColors(reader.data, start, n);
    return Success(colors[..]);
  }

  /** The UVS0 loop (and each frame of the AUVS loop): n triangle UVs. */
  method ReadTriUvs(reader: Reader, n: nat) returns (r: Result<seq<BseTriUv>>)
    requires reader.pos <= |reader.data|
    modifies reader
    ensures old(reader.pos) + 24 * n <= |reader.data| ==> r == Success(TriUvs(reader.data, old(reader.pos), n)) && reader.pos == old(reader.pos) + 24 * n
    ensures old(reader.pos) + 24 * n > |reader.data| ==> r == Failure(EndOfStream)
  {
    var uvs := new BseTriUv[n];
    ghost var start := reader.pos;
    var i := 0;
    while i < n
      invariant i <= n && reader.pos == start + 24 * i <= |reader.data|
      invariant forall t :: 0 <= t < i ==> uvs[t] == TriUvAt(reader.data, start + 24 * t)
    {
      var uv :- ReadTriUv(reader);
      uvs[i] := uv;
      i := i + 1;
    }
    assert uvs[..] == TriUvs(reader.data, start, n);
    return Success(uvs[..]);
  }

  /** The FLAG loop: n u32 flags. */
  method ReadFlags(reader: Reader, n: nat) returns (r: Result<seq<u32>>)
    requires reader.pos <= |reader.data|
    modifies reader
    ensures old(reader.pos) + 4 * n <= |reader.data| ==> r == Success(U32s(reader.data, old(reader.pos), n)) && reader.pos == old(reader.pos) + 4 * n
    ensures old(reader.pos) + 4 * n > |reader.data| ==> r == Failure(EndOfStream)
  {
    var flags := new u32[n];
    ghost var start := reader.pos;
    var i := 0;
    while i < n
      invariant i <= n && reader.pos == start + 4 * i <= |reader.data|
      invariant forall t :: 0 <= t < i ==> flags[t] == U32At(reader.data, start + 4 * t)
    {
      var flag :- reader.ReadU32();
      flags[i] := flag;
      i := i + 1;
    }
    assert flags[..] == U32s(reader.data, start, n);
    return Success(flags[..]);
  }

  /** The FRMS loop: count frames of n vertices each. */
  method ReadFrames(reader: Reader, count: nat, n: nat) returns (r: Result<seq<BseFrame>>)
    requires reader.pos <= |reader.data|
    modifies reader
    ensures old(reader.pos) + Blocks(count, 12 * n) <= |reader.data| ==>
      r == Success(VertFrames(reader.data, old(reader.pos), count, n)) && reader.pos == old(reader.pos) + Blocks(count, 12 * n)
    ensures old(reader.pos) + Blocks(count, 12 * n) > |reader.data| ==> r == Failure(EndOfStream)
  {
    var frames := new BseFrame[count];
    ghost var start := reader.pos;
    var i := 0;
    while i < count
      invariant i <= count && reader.pos == start + Blocks(i, 12 * n) <= |reader.data|
      invariant frames[..i] == VertFrames(reader.data, start, i, n)
    {
      BlocksStep(i, count, 12 * n);
      var verts := ReadVerts(reader, n);
      if verts.Failure? {
        return Failure(verts.error);
      }
      frames[i] := BseFrame(verts.value);
      i := i + 1;
      assert frames[..i] == frames[..i - 1] + [BseFrame(verts.value)];
    }
    assert frames[..] == frames[..i];
    return Success(frames[..]);
  }

  /** The AUVS loop: count frames of n triangle UVs each. */
  method ReadUvFrames(reader: Reader, count: nat, n: nat) returns (r: Result<seq<BseUvFrame>>)
    requires reader.pos <= |reader.data|
    modifies reader
    ensures old(reader.pos) + Blocks(count, 24 * n) <= |reader.data| ==>
      r == Success(UvFrames(reader.data, old(reader.pos), count, n)) && reader.pos == old(reader.pos) + Blocks(count, 24 * n)
    ensures old(reader.pos) + Blocks(count, 24 * n) > |reader.data| ==> r == Failure(EndOfStream)
  {
    var frames := new BseUvFrame[count];
    ghost var start := reader.pos;
    var i := 0;
    while i < count
      invariant i <= count && reader.pos == start + Blocks(i, 24 * n) <= |reader.data|
      invariant frames[..i] == UvFrames(reader.data, start, i, n)
    {
      BlocksStep(i, count, 24 * n);
      var uvs := ReadTriUvs(reader, n);
      if uvs.Failure? {
        return Failure(uvs.error);
      }
      frames[i] := BseUvFrame(uvs.value);
      i := i + 1;
      assert frames[..i] == frames[..i - 1] + [BseUvFrame(uvs.value)];
    }
    assert frames[..] == frames[..i];
    return Success(frames[..]);
  }

  /**
   * Bse.Read. The cursor runs through the sections in order; each stage below
   * reads one section into the mesh read so far and then runs the next stage.
   */
  method Read(bytes: seq<u8>) returns (r: Result<Bse>)
    ensures r == ReadSpec(bytes)
  {
    var reader := new Reader(bytes);
    var ok :- AssertMagic(reader, Bse1Tag);
    var numPoly :- reader.ReadU32();
    var numVert :- reader.ReadU32();
    var numFrames :- reader.ReadU32();
    r := ReadVertSection(reader, Bse(numPoly, numVert, numFrames, [], [], [], [], [], None, None, None));
  }

  method ReadVertSection(reader: Reader, m: Bse) returns (r: Result<Bse>)
    modifies reader
    ensures r == VertFrom(reader.data, m, old(reader.pos))
  {
    var ok :- AssertMagic(reader, VertTag);
    var verts :- ReadVerts(reader, m.numVerts);
    r := ReadPolySection(reader, m.(vertices := verts));
  }

  method ReadPolySection(reader: Reader, m: Bse) returns (r: Result<Bse>)
    modifies reader
    ensures r == PolyFrom(reader.data, m, old(reader.pos))
  {
    var ok :- AssertMagic(reader, PolyTag);
    var polys :- ReadTris(reader, m.numPoly);
    r := ReadColrSection(reader, m.(polys := polys));
  }

  method ReadColrSection(reader: Reader, m: Bse) returns (r: Result<Bse>)
    modifies reader
    ensures r == ColrFrom(reader.data, m, old(reader.pos))
  {
    var ok :- AssertMagic(reader, ColrTag);
    var colors :- ReadTriColors(reader, m.numPoly);
    r := ReadUvs0Section(reader, m.(colors := colors));
  }

  method ReadUvs0Section(reader: Reader, m: Bse) returns (r: Result<Bse>)
    modifies reader
    ensures r == Uvs0From(reader.data, m, old(reader.pos))
  {
    var ok :- AssertMagic(reader, Uvs0Tag);
    var uvs :- ReadTriUvs(reader, m.numPoly);
    r := ReadFlagSection(reader, m.(uvs := uvs));
  }

  method ReadFlagSection(reader: Reader, m: Bse) returns (r: Result<Bse>)
    modifies reader
    ensures r == FlagFrom(reader.data, m, old(reader.pos))
  {
    var ok :- AssertMagic(reader, FlagTag);
    var flags :- ReadFlags(reader, m.numPoly);
    r := ReadFrmsSection(reader, m.(flags := flags));
  }

  method ReadFrmsSection(reader: Reader, m: Bse) returns (r: Result<Bse>)
    modifies reader
    ensures r == FrmsFrom(reader.data, m, old(reader.pos))
  {
    var frames: Option<seq<BseFrame>> := None;
    if m.numFrames != 0 {
      var ok :- AssertMagic(reader, FrmsTag);
      var frameVerts :- ReadFrames(reader, m.numFrames, m.numVerts);
      frames := Some(frameVerts);
    }
    r := ProbeScal(reader, m.(frames := frames));
  }

  method ProbeScal(reader: Reader, m: Bse) returns (r: Result<Bse>)
    modifies reader
    ensures r == ScalFrom(reader.data, m, old(reader.pos))
  {
    var scale: Option<u32> := None;
    if reader.pos < |reader.data| - 4 {
      var magic := ReadMagic(reader);
      if magic == ScalTag {
        var value :- reader.ReadU32();
        scale := Some(value);
      }
    }
    r := ProbeAuvs(reader, m.(scale := scale));
  }

  method ProbeAuvs(reader: Reader, m: Bse) returns (r: Result<Bse>)
    modifies reader
    ensures r == AuvsFrom(reader.data, m, old(reader.pos))
  {
    var uvFrames: Option<seq<BseUvFrame>> := None;
    if reader.pos < |reader.data| - 4 {
      var magic := ReadMagic(reader);
      if magic == AuvsTag {
        var frameUvs :- ReadUvFrames(reader, m.numFrames, m.numPoly);
        uvFrames := Some(frameUvs);
      }
    }
    return Success(m.(uvFrames := uvFrames));
  }

  /** One more block adds size bytes, and a prefix of the blocks takes no more bytes than all of them. */
  lemma BlocksStep(i: nat, count: nat, size: nat)
    requires i < count
    ensures Blocks(i + 1, size) == Blocks(i, size) + size <= Blocks(count, size)
  {
  }

  /** Every block before the last of count blocks ends within them. */
  lemma {:induction false} BlocksWithin(count: nat, size: nat)
    ensures forall k: nat {:trigger Blocks(k, size)} :: k < count ==> Blocks(k, size) + size <= Blocks(count, size)
  {
    forall k: nat | k < count
      ensures Blocks(k, size) + size <= Blocks(count, size)
    {
      BlocksStep(k, count, size);
    }
  }

  // ---------------------------------------------------------------------------
  // Properties

  /** Frame k of count frames of n vertices starts k * 12n bytes in. */
  lemma {:induction false} VertFramesAt(b: seq<u8>, pos: nat, count: nat, n: nat, k: nat)
    requires pos + Blocks(count, 12 * n) <= |b| && k < count
    ensures Blocks(k, 12 * n) + 12 * n <= Blocks(count, 12 * n)
    ensures VertFrames(b, pos, count, n)[k] == BseFrame(Verts(b, pos + Blocks(k, 12 * n), n))
    decreases count
  {
    BlocksStep(k, count, 12 * n);
    if k < count - 1 {
      BlocksStep(count - 1, count, 12 * n);
      VertFramesAt(b, pos, count - 1, n, k);
    }
  }

  /** UV frame k of count frames of n triangles starts k * 24n bytes in. */
  lemma {:induction false} UvFramesAt(b: seq<u8>, pos: nat, count: nat, n: nat, k: nat)
    requires pos + Blocks(count, 24 * n) <= |b| && k < count
    ensures Blocks(k, 24 * n) + 24 * n <= Blocks(count, 24 * n)
    ensures UvFrames(b, pos, count, n)[k] == BseUvFrame(TriUvs(b, pos + Blocks(k, 24 * n), n))
    decreases count
  {
    BlocksStep(k, count, 24 * n);
    if k < count - 1 {
      BlocksStep(count - 1, count, 24 * n);
      UvFramesAt(b, pos, count - 1, n, k);
    }
  }

  /**
   * A layout from VERT on spelled out: the tags VERT, POLY, COLR, UVS0 and FLAG
   * in that order at the offsets the counts give, the records of each section
   * right after its tag, the counts kept, and the FRMS section right after the
   * flags exactly when the frame count is not zero. With ReadSpec's contract at
   * offset 16 and the header's counts, this is the layout of every file Bse.Read accepts.
   */
  lemma VertLayout(b: seq<u8>, pos: nat, m: Bse, r: Bse)
    requires VertLaid(b, pos, m, r)
    ensures
      var n: nat := m.numPoly;
      var p := pos + 4 + 12 * m.numVerts;
      var c := p + 4 + 32 * n;
      var u := c + 4 + 9 * n;
      var f := u + 4 + 24 * n;
      && TagAt(b, pos) == VertTag && TagAt(b, p) == PolyTag && TagAt(b, c) == ColrTag
      && TagAt(b, u) == Uvs0Tag && TagAt(b, f) == FlagTag && f + 4 + 4 * n <= |b|
      && r.numPoly == m.numPoly && r.numVerts == m.numVerts && r.numFrames == m.numFrames
      && r.vertices == Verts(b, pos + 4, m.numVerts) && r.polys == Tris(b, p + 4, n)
      && r.colors == TriColors(b, c + 4, n) && r.uvs == TriUvs(b, u + 4, n) && r.flags == U32s(b, f + 4, n)
      && f + 4 + 4 * n == FlagsEnd(pos, m)
      && FramesLaid(b, f + 4 + 4 * n, m.numFrames, m.numVerts, r.frames)
      && var s := FramesEnd(f + 4 + 4 * n, m.numFrames, m.numVerts);
      && ScalLaid(b, s, r.scale) && AuvsLaid(b, ProbeEnd(b, s), m.numFrames, m.numPoly, r.uvFrames)
  {
  }

  /**
   * The optional sections of a file Bse.Read accepts: the SCAL probe right after
   * the flags (no frames) or the FRMS section, and the AUVS probe where that one
   * ends; each is present exactly when its tag is probed there, and AUVS holds
   * numFrames frames of numPoly triangle UVs.
   */
  lemma ReadOptional(b: seq<u8>, r: Bse)
    requires ReadSpec(b) == Success(r)
    ensures 16 <= |b|
    ensures
      var h := Header(b);
      var s := FramesEnd(FlagsEnd(16, h), h.numFrames, h.numVerts);
      && ScalLaid(b, s, r.scale)
      && AuvsLaid(b, ProbeEnd(b, s), h.numFrames, h.numPoly, r.uvFrames)
  {
    var h := Header(b);
    assert VertLaid(b, 16, h, r);
    VertLayout(b, 16, h, r);
  }

  /** The FRMS section holds numFrames sets of numVerts vertices, set k at 12 * numVerts * k bytes after the tag. */
  lemma {:induction false} FramesShape(b: seq<u8>, pos: nat, nf: nat, nv: nat, frames: Option<seq<BseFrame>>)
    requires FramesLaid(b, pos, nf, nv, frames) && nf != 0
    ensures frames.Some? && |frames.value| == nf
    ensures forall k: nat :: k < nf ==> Blocks(k, 12 * nv) + 12 * nv <= Blocks(nf, 12 * nv)
    ensures forall k :: 0 <= k < nf ==> frames.value[k].verts == Verts(b, pos + 4 + Blocks(k, 12 * nv), nv)
  {
    BlocksWithin(nf, 12 * nv);
    forall k | 0 <= k < nf
      ensures frames.value[k].verts == Verts(b, pos + 4 + Blocks(k, 12 * nv), nv)
    {
      VertFramesAt(b, pos + 4, nf, nv, k);
    }
  }

  /** A mismatched tag is reported with the offset where it began: 16 for a bad VERT tag. */
  lemma {:induction false} BadVertTag(b: seq<u8>)
    requires |b| >= 20 && b[..4] == Bse1Tag && b[16..20] != VertTag
    ensures ReadSpec(b) == Failure(BadMagic(VertTag, b[16..20], 0x10))
  {
    assert TagAt(b, 0) == b[..4];
  }

  /** A file too short for its first tag fails on the tag, with an offset before the start of the file. */
  lemma {:induction false} ShortFile(b: seq<u8>)
    requires |b| < 4
    ensures ReadSpec(b) == Failure(BadMagic(Bse1Tag, b, |b| - 4)) && |b| - 4 < 0
  {
    assert TagAt(b, 0) == b;
  }

  /**
   * The SCAL probe consumes its four bytes even when they do not match: an AUVS
   * tag right where SCAL could be is skipped, and the AUVS probe then looks at
   * the four bytes after it.
   */
  lemma {:induction false} AuvsNeedsScal(b: seq<u8>, m: Bse, pos: nat)
    requires pos < |b| - 4 && TagAt(b, pos) == AuvsTag && TagAt(b, pos + 4) != AuvsTag
    ensures ScalFrom(b, m, pos) == Success(m.(scale := None, uvFrames := None))
  {
    assert ScalTag != AuvsTag by { assert ScalTag[0] != AuvsTag[0]; }
  }

  /** The AUVS section holds numFrames sets of numPoly triangle UVs, set k at 24 * numPoly * k bytes after the tag. */
  lemma {:induction false} UvFramesShape(b: seq<u8>, m: Bse, pos: nat)
    requires AuvsFrom(b, m, pos).Success? && AuvsFrom(b, m, pos).value.uvFrames.Some?
    ensures forall k: nat :: k < m.numFrames ==> Blocks(k, 24 * m.numPoly) + 24 * m.numPoly <= Blocks(m.numFrames, 24 * m.numPoly)
    ensures var fs := AuvsFrom(b, m, pos).value.uvFrames.value;
      && pos < |b| - 4 && TagAt(b, pos) == AuvsTag && |fs| == m.numFrames
      && forall k :: 0 <= k < m.numFrames ==> fs[k].uvs == TriUvs(b, pos + 4 + Blocks(k, 24 * m.numPoly), m.numPoly)
  {
    var fs := AuvsFrom(b, m, pos).value.uvFrames.value;
    BlocksWithin(m.numFrames, 24 * m.numPoly);
    forall k | 0 <= k < m.numFrames
      ensures fs[k].uvs == TriUvs(b, pos + 4 + Blocks(k, 24 * m.numPoly), m.numPoly)
    {
      UvFramesAt(b, pos + 4, m.numFrames, m.numPoly, k);
    }
  }
}
