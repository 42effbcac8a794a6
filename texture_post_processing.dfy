/**
 * TexturePostProcessing: passes over ARGB1555 texture data in place. Black
 * pixels are made transparent, and a camouflage texture is blended into a
 * unit texture tile by tile.
 */
module TexturePostProcessing {
  import opened Bytes
  import opened Argb1555

  // ---------------------------------------------------------------------------
  // MaskOutBlackPixels

  /** One pixel of MaskOutBlackPixels: the alpha bit is set on a pixel with all three colour channels 0 and the bit clear. */
  function MaskBlack(p: u16): u16
  {
    var a := if A(p) != 1 && R(p) == 0 && G(p) == 0 && B(p) == 0 then 1 else A(p);
    Pack(a, R(p), G(p), B(p))
  }

  /** The pass, pixel by pixel. */
  function MaskAll(pixels: seq<u16>): (out: seq<u16>)
    ensures |out| == |pixels|
    ensures forall i :: 0 <= i < |pixels| ==> out[i] == MaskBlack(pixels[i])
  {
    seq(|pixels|, i requires 0 <= i < |pixels| => MaskBlack(pixels[i]))
  }

  /** TexturePostProcessing.MaskOutBlackPixels: every pixel rewritten in place. */
  method MaskOutBlackPixels(pixels: array<u16>)
    modifies pixels
    ensures pixels[..] == MaskAll(old(pixels[..]))
  {
    var i := 0;
    while i < pixels.Length
      invariant i <= pixels.Length
      invariant forall t :: 0 <= t < i ==> pixels[t] == MaskBlack(old(pixels[t]))
      invariant forall t :: i <= t < pixels.Length ==> pixels[t] == old(pixels[t])
    {
      var pixel := pixels[i];
      var a := A(pixel);
      var r, g, b := R(pixel), G(pixel), B(pixel);
      if a != 1 && r == 0 && g == 0 && b == 0 {
        a := 1;
      }
      pixels[i] := Pack(a, r, g, b);
      i := i + 1;
    }
  }

  /**
   * A pixel changes exactly when its three colour channels are 0 and its alpha
   * bit is clear, that is when it is 0, and then it becomes 0x8000; every other
   * pixel keeps its bits.
   */
  lemma {:induction false} MaskBlackChanges(p: u16)
    ensures MaskBlack(p) != p <==> A(p) == 0 && R(p) == 0 && G(p) == 0 && B(p) == 0
    ensures MaskBlack(p) == if p == 0 then 0x8000 else p
  {
    Unpack(p);
    if A(p) == 0 && R(p) == 0 && G(p) == 0 && B(p) == 0 {
      assert p == Pack(0, 0, 0, 0) == 0;
      assert MaskBlack(p) == Pack(1, 0, 0, 0) == 0x8000;
    } else {
      assert p != 0;
      assert MaskBlack(p) == Pack(A(p), R(p), G(p), B(p));
    }
  }

  /** A second pass changes nothing. */
  lemma {:induction false} MaskAllIdempotent(pixels: seq<u16>)
    ensures MaskAll(MaskAll(pixels)) == MaskAll(pixels)
  {
    forall i | 0 <= i < |pixels|
      ensures MaskBlack(MaskBlack(pixels[i])) == MaskBlack(pixels[i])
    {
      MaskBlackChanges(pixels[i]);
      MaskBlackChanges(MaskBlack(pixels[i]));
    }
  }

  // ---------------------------------------------------------------------------
  // SkipPixelForCammo

  /**
   * A pixel the camouflage leaves alone (a magenta-like key colour): red and
   * blue at least 224 / 8 and green at most 32 / 8 on the 5-bit channels. Its
   * colour bits are then at least those of red 28 and blue 28, so no black
   * pixel, masked (0x8000) or not (0x0000), is a key colour.
   */
  function SkipPixelForCammo(p: u16): (skip: bool)
    ensures skip ==> 0x701C <= p % 0x8000
    ensures skip ==> p != 0 && p != 0x8000
  {
    var skip := R(p) >= 224 / 8 && G(p) <= 32 / 8 && B(p) >= 224 / 8;
    if skip then ColourBits(p); skip else skip
  }

  /** The colour bits of a pixel are its red, green and blue fields at their places. */
  lemma ColourBits(p: u16)
    ensures p % 0x8000 == R(p) * 0x400 + G(p) * 0x20 + B(p)
  {
    Unpack(p);
    assert p == A(p) * 0x8000 + R(p) * 0x400 + G(p) * 0x20 + B(p);
  }

  /** The key colours are red and blue of at least 28 and green of at most 4; the alpha bit plays no part in the test. */
  lemma {:induction false} SkipIgnoresAlpha(p: u16, a: nat)
    requires a < 2
    ensures SkipPixelForCammo(p) <==> 28 <= R(p) && G(p) <= 4 && 28 <= B(p)
    ensures SkipPixelForCammo(Pack(a, R(p), G(p), B(p))) == SkipPixelForCammo(p)
  {
  }

  // ---------------------------------------------------------------------------
  // One pixel of ApplyCammoTile

  /** (x * y) >> 5 on two values of at most 32. */
  function Mix(x: nat, y: nat): (z: nat)
    requires x <= 0x20 && y <= 0x20
    ensures z <= 0x20
  {
    assert x * y <= 0x20 * y <= 0x400;
    (x * y) / 0x20
  }

  /** ((32 - a) * c + (a + 1) * d) >> 5: d weighted by a against c. */
  function Weigh(a: nat, c: nat, d: nat): nat
    requires a <= 0x20
  {
    var keep := 0x20 - a;
    assert 0 <= keep * c && 0 <= (a + 1) * d;
    (keep * c + (a + 1) * d) / 0x20
  }

  /** if (c > 0x1F) c = 0x1F */
  function Clamp(c: nat): (d: nat)
    ensures d < 0x20 && (c < 0x20 ==> d == c)
  {
    if c > 0x1F then 0x1F else c
  }

  /**
   * One channel of the blend: the palette channel mixed into the camouflage
   * channel and into the base channel (when the palette pixel is not 0), then
   * the camouflage channel mixed into the base channel, either half and half
   * weighted by alphaR (no camouflage alpha plane) or weighted by the
   * camouflage alpha channel scaled by alphaR; clamped to 31.
   */
  function BlendChannel(c: nat, cammo: nat, pal: nat, hasPalette: bool, alphaR: nat, cammoAlpha: Option<nat>): (v: nat)
    requires c < 0x20 && cammo < 0x20 && pal < 0x20 && alphaR <= 0x20
    requires cammoAlpha.Some? ==> cammoAlpha.value < 0x20
    ensures v < 0x20
  {
    var cm := if hasPalette then Mix(cammo + 1, pal + 1) else cammo;
    var base := if hasPalette then Mix(pal + 1, c) else c;
    match cammoAlpha
    case None => Clamp((Mix(cm, alphaR) + base) / 2)
    case Some(ca) =>
      var a := Mix(ca, alphaR);
      Clamp(Weigh(a, base, cm))
  }

  /** The blended pixel: the three channels blended alike, the alpha bit clear. */
  function Blend(colorPixel: u16, alphaR: nat, cammoColorPixel: u16, cammoAlphaPixel: Option<u16>, palettePixel: u16): (p: u16)
    requires alphaR <= 0x20
    ensures A(p) == 0
  {
    var has := palettePixel != 0;
    Pack(0,
      BlendChannel(R(colorPixel), R(cammoColorPixel), R(palettePixel), has, alphaR, if cammoAlphaPixel.Some? then Some(R(cammoAlphaPixel.value)) else None),
      BlendChannel(G(colorPixel), G(cammoColorPixel), G(palettePixel), has, alphaR, if cammoAlphaPixel.Some? then Some(G(cammoAlphaPixel.value)) else None),
      BlendChannel(B(colorPixel), B(cammoColorPixel), B(palettePixel), has, alphaR, if cammoAlphaPixel.Some? then Some(B(cammoAlphaPixel.value)) else None))
  }

  /**
   * Whether the blend is taken over a pixel: the camouflage alpha (the
   * camouflage colour when there is no camouflage alpha plane) is not 0, the
   * camouflage colour is not the key colour cammoAlphaMask unless there is a
   * camouflage alpha plane, and none of the four pixels is a skipped colour.
   * The texture's alpha pixel is the colour pixel when there is no alpha plane.
   */
  predicate Blended(colorPixel: u16, alpha: Option<u16>, cammoColorPixel: u16, cammoAlpha: Option<u16>, cammoAlphaMask: u16)
  {
    var alphaPixel := if alpha.Some? then alpha.value else colorPixel;
    var cammoAlphaPixel := if cammoAlpha.Some? then cammoAlpha.value else cammoColorPixel;
    && cammoAlphaPixel != 0 && (cammoColorPixel != cammoAlphaMask || cammoAlpha.Some?)
    && !SkipPixelForCammo(cammoColorPixel) && !SkipPixelForCammo(cammoAlphaPixel)
    && !SkipPixelForCammo(colorPixel) && !SkipPixelForCammo(alphaPixel)
  }

  /** The palette entry: entry 1 without an alpha plane, the alpha pixel's blue channel with one. */
  function PaletteIndex(alpha: Option<u16>): (index: nat)
    ensures index < 0x20
  {
    if alpha.None? then 1 else B(alpha.value)
  }

  /**
   * The new value of one texture pixel under the camouflage: colorPixel is the
   * pixel and alpha its pixel in the texture's alpha plane if there is one;
   * cammoColorPixel and cammoAlpha are the camouflage pixels over it. A palette
   * entry past the palette fails. The blend is stored only over a pixel other
   * than otherMask and only when it is not 0, so a written pixel is never 0 and
   * has its alpha bit clear.
   */
  function CammoPixel(colorPixel: u16, alpha: Option<u16>, cammoColorPixel: u16, cammoAlpha: Option<u16>,
                      palette: seq<u16>, cammoAlphaMask: u16, otherMask: u16): (r: Result<u16>)
    ensures r.Success? ==> r.value == colorPixel || (colorPixel != otherMask && r.value != 0 && A(r.value) == 0)
  {
    if Blended(colorPixel, alpha, cammoColorPixel, cammoAlpha, cammoAlphaMask) then
      var alphaR := if alpha.None? then 0 else R(alpha.value) + 1;
      var index := PaletteIndex(alpha);
      if index >= |palette| then Failure(ArgumentOutOfRange)
      else
        var newPixel := Blend(colorPixel, alphaR, cammoColorPixel, cammoAlpha, palette[index]);
        Success(if colorPixel != otherMask && newPixel != 0 then newPixel else colorPixel)
    else Success(colorPixel)
  }

  /**
   * The pixel is left as it is when the blend is not taken; the lookup fails,
   * with an index out of range, exactly when the blend is taken and the
   * palette entry lies past the palette.
   */
  lemma {:induction false} CammoPixelOutcome(colorPixel: u16, alpha: Option<u16>, cammoColorPixel: u16, cammoAlpha: Option<u16>,
                                             palette: seq<u16>, cammoAlphaMask: u16, otherMask: u16)
    ensures var r := CammoPixel(colorPixel, alpha, cammoColorPixel, cammoAlpha, palette, cammoAlphaMask, otherMask);
      && (r.Failure? <==> Blended(colorPixel, alpha, cammoColorPixel, cammoAlpha, cammoAlphaMask) && PaletteIndex(alpha) >= |palette|)
      && (r.Failure? ==> r.error == ArgumentOutOfRange)
      && (!Blended(colorPixel, alpha, cammoColorPixel, cammoAlpha, cammoAlphaMask) ==> r == Success(colorPixel))
  {
  }

  /** A black pixel (0) stays black, and nothing turns black: the blend never writes 0. */
  lemma {:induction false} CammoPixelKeepsBlack(colorPixel: u16, alpha: Option<u16>, cammoColorPixel: u16, cammoAlpha: Option<u16>,
                                                palette: seq<u16>, cammoAlphaMask: u16)
    ensures var r := CammoPixel(colorPixel, alpha, cammoColorPixel, cammoAlpha, palette, cammoAlphaMask, 0);
      r.Success? ==> (r.value == 0 <==> colorPixel == 0)
  {
  }

  // ---------------------------------------------------------------------------
  // Tiles

  /** Offset of column col of row row in an image w pixels wide. */
  function Idx(w: nat, row: nat, col: nat): nat { row * w + col }

  /** a <= b ==> a * c <= b * c */
  lemma MulMono(a: nat, b: nat, c: nat)
    requires a <= b
    ensures a * c <= b * c
  {
  }

  /** A pixel inside an image h rows high lies before offset h * w. */
  lemma {:induction false} IdxBound(w: nat, h: nat, row: nat, col: nat)
    requires row < h && col < w
    ensures Idx(w, row, col) < h * w
  {
    MulMono(row + 1, h, w);
  }

  /** Every pixel of an image h rows of w lies before offset h * w. */
  lemma {:induction false} IdxBounds(w: nat, h: nat)
    ensures forall row: nat, col: nat {:trigger Idx(w, row, col)} :: row < h && col < w ==> Idx(w, row, col) < h * w
  {
    forall row: nat, col: nat | row < h && col < w
      ensures Idx(w, row, col) < h * w
    {
      IdxBound(w, h, row, col);
    }
  }

  /** Distinct pixels of an image have distinct offsets. */
  lemma {:induction false} IdxUnique(w: nat, row: nat, col: nat)
    requires col < w
    ensures forall r2: nat, c2: nat {:trigger Idx(w, r2, c2)} :: c2 < w && Idx(w, r2, c2) == Idx(w, row, col) ==> r2 == row && c2 == col
  {
    forall r2: nat, c2: nat | c2 < w && Idx(w, r2, c2) == Idx(w, row, col)
      ensures r2 == row && c2 == col
    {
      if r2 < row {
        MulMono(r2 + 1, row, w);
      } else if row < r2 {
        MulMono(row + 1, r2, w);
      }
    }
  }

  /** Dividing t * d + e by d gives t and leaves e, for e < d. */
  lemma {:induction false} DivModOffset(t: nat, d: nat, e: nat)
    requires e < d
    ensures (t * d + e) / d == t && (t * d + e) % d == e
  {
    var a := t * d + e;
    var q, m := a / d, a % d;
    assert a == q * d + m;
    if q > t {
      MulMono(t + 1, q, d);
    } else if q < t {
      MulMono(q + 1, t, d);
    }
  }

  /** (w << 8) / w: the resampling step is exactly one camouflage pixel per texture pixel. */
  lemma {:induction false} Step256(w: nat)
    requires w > 0
    ensures (w * 256) / w == 256
  {
    DivModOffset(256, w, 0);
  }

  /** The camouflage one tile is blended with: its body, palette and masks. */
  datatype Cammo = Cammo(colors: seq<u16>, alphas: Option<seq<u16>>, width: nat, height: nat,
                         palette: seq<u16>, alphaMask: u16, otherMask: u16)
  {
    predicate Valid()
    {
      width > 0 && height > 0 && |colors| == height * width && (alphas.Some? ==> |alphas.value| == height * width)
    }
  }

  /** The texture planes hold textureHeight rows of textureWidth pixels. */
  predicate Fits(pixels: seq<u16>, alphaPixels: Option<seq<u16>>, textureWidth: nat, textureHeight: nat)
  {
    textureHeight * textureWidth <= |pixels| && (alphaPixels.Some? ==> textureHeight * textureWidth <= |alphaPixels.value|)
  }

  /** Texture pixel (py, px) of pixels under camouflage pixel (cy, cx). */
  function TexelAt(pixels: seq<u16>, alphaPixels: Option<seq<u16>>, textureWidth: nat, textureHeight: nat,
                   cammo: Cammo, py: nat, px: nat, cy: nat, cx: nat): Result<u16>
    requires Fits(pixels, alphaPixels, textureWidth, textureHeight) && cammo.Valid()
    requires py < textureHeight && px < textureWidth && cy < cammo.height && cx < cammo.width
  {
    IdxBound(textureWidth, textureHeight, py, px);
    IdxBound(cammo.width, cammo.height, cy, cx);
    var j, cj := Idx(textureWidth, py, px), Idx(cammo.width, cy, cx);
    CammoPixel(pixels[j], if alphaPixels.Some? then Some(alphaPixels.value[j]) else None,
               cammo.colors[cj], if cammo.alphas.Some? then Some(cammo.alphas.value[cj]) else None,
               cammo.palette, cammo.alphaMask, cammo.otherMask)
  }

  /** The tile at (x, y): width by height pixels (the edges of the texture cut it off further). */
  predicate InTile(py: nat, px: nat, x: nat, y: nat, width: nat, height: nat)
  {
    y <= py < y + height && x <= px < x + width
  }

  /** Row-major order inside a tile: (py, px) comes before texture pixel (y + i, x + k). */
  predicate Before(py: nat, px: nat, x: nat, y: nat, i: nat, k: nat)
  {
    py < y + i || (py == y + i && px < x + k)
  }

  /** Nothing changes past the texture's last row nor outside the tile. */
  predicate TileFrame(cur: seq<u16>, before: seq<u16>, textureWidth: nat, textureHeight: nat, x: nat, y: nat, width: nat, height: nat)
  {
    IdxBounds(textureWidth, textureHeight);
    && textureHeight * textureWidth <= |before| && |cur| == |before|
    && (forall j :: textureHeight * textureWidth <= j < |cur| ==> cur[j] == before[j])
    && (forall py: nat, px: nat :: py < textureHeight && px < textureWidth && !InTile(py, px, x, y, width, height) ==>
          cur[Idx(textureWidth, py, px)] == before[Idx(textureWidth, py, px)])
  }

  /** Every pixel of the tile holds its value under the camouflage. */
  predicate TileApplied(cur: seq<u16>, before: seq<u16>, alphaPixels: Option<seq<u16>>, textureWidth: nat, textureHeight: nat,
                        cammo: Cammo, x: nat, y: nat)
  {
    IdxBounds(textureWidth, textureHeight);
    && Fits(before, alphaPixels, textureWidth, textureHeight) && cammo.Valid() && |cur| == |before|
    && forall py: nat, px: nat :: py < textureHeight && px < textureWidth && InTile(py, px, x, y, cammo.width, cammo.height) ==>
         Success(cur[Idx(textureWidth, py, px)]) == TexelAt(before, alphaPixels, textureWidth, textureHeight, cammo, py, px, py - y, px - x)
  }

  /** Every pixel of the tile holds its old value or its value under the camouflage. */
  predicate TilePartial(cur: seq<u16>, before: seq<u16>, alphaPixels: Option<seq<u16>>, textureWidth: nat, textureHeight: nat,
                        cammo: Cammo, x: nat, y: nat)
  {
    IdxBounds(textureWidth, textureHeight);
    && Fits(before, alphaPixels, textureWidth, textureHeight) && cammo.Valid() && |cur| == |before|
    && forall py: nat, px: nat :: py < textureHeight && px < textureWidth && InTile(py, px, x, y, cammo.width, cammo.height) ==>
         || cur[Idx(textureWidth, py, px)] == before[Idx(textureWidth, py, px)]
         || Success(cur[Idx(textureWidth, py, px)]) == TexelAt(before, alphaPixels, textureWidth, textureHeight, cammo, py, px, py - y, px - x)
  }

  /** Some pixel of the tile has a palette entry past the palette. */
  predicate TileFails(before: seq<u16>, alphaPixels: Option<seq<u16>>, textureWidth: nat, textureHeight: nat, cammo: Cammo, x: nat, y: nat)
  {
    IdxBounds(textureWidth, textureHeight);
    && Fits(before, alphaPixels, textureWidth, textureHeight) && cammo.Valid()
    && exists py: nat, px: nat :: py < textureHeight && px < textureWidth && InTile(py, px, x, y, cammo.width, cammo.height)
         && TexelAt(before, alphaPixels, textureWidth, textureHeight, cammo, py, px, py - y, px - x).Failure?
  }

  /** The tile pass after its first i rows and k more pixels. */
  predicate TileState(cur: seq<u16>, before: seq<u16>, alphaPixels: Option<seq<u16>>, textureWidth: nat, textureHeight: nat,
                      cammo: Cammo, x: nat, y: nat, i: nat, k: nat)
  {
    IdxBounds(textureWidth, textureHeight);
    && Fits(before, alphaPixels, textureWidth, textureHeight) && cammo.Valid() && |cur| == |before|
    && (forall j :: textureHeight * textureWidth <= j < |cur| ==> cur[j] == before[j])
    && (forall py: nat, px: nat :: py < textureHeight && px < textureWidth
          && !(InTile(py, px, x, y, cammo.width, cammo.height) && Before(py, px, x, y, i, k))
          ==> cur[Idx(textureWidth, py, px)] == before[Idx(textureWidth, py, px)])
    && (forall py: nat, px: nat :: py < textureHeight && px < textureWidth
          && InTile(py, px, x, y, cammo.width, cammo.height) && Before(py, px, x, y, i, k)
          ==> Success(cur[Idx(textureWidth, py, px)]) == TexelAt(before, alphaPixels, textureWidth, textureHeight, cammo, py, px, py - y, px - x))
  }

  /**
   * The tile pass stopped at texture pixel (y + i, x + k): the tile pixels
   * before it in row-major order hold their values under the camouflage, every
   * other pixel is unchanged, and its own palette lookup fails.
   */
  predicate TileStopsAt(cur: seq<u16>, before: seq<u16>, alphaPixels: Option<seq<u16>>, textureWidth: nat, textureHeight: nat,
                        cammo: Cammo, x: nat, y: nat, i: nat, k: nat)
  {
    && TileState(cur, before, alphaPixels, textureWidth, textureHeight, cammo, x, y, i, k)
    && i < cammo.height && k < cammo.width && y + i < textureHeight && x + k < textureWidth
    && TexelAt(before, alphaPixels, textureWidth, textureHeight, cammo, y + i, x + k, i, k).Failure?
  }

  /**
   * A failed tile pass: every tile pixel old or new, some tile pixel's lookup
   * failing, and the pass stopped at such a pixel with exactly the pixels
   * before it written.
   */
  ghost predicate TileFailed(cur: seq<u16>, before: seq<u16>, alphaPixels: Option<seq<u16>>, textureWidth: nat, textureHeight: nat,
                       cammo: Cammo, x: nat, y: nat)
  {
    && TilePartial(cur, before, alphaPixels, textureWidth, textureHeight, cammo, x, y)
    && TileFails(before, alphaPixels, textureWidth, textureHeight, cammo, x, y)
    && exists i: nat, k: nat :: TileStopsAt(cur, before, alphaPixels, textureWidth, textureHeight, cammo, x, y, i, k)
  }

  /** Writing the value of pixel (y + i, x + k) moves the pass on by one pixel. */
  lemma {:induction false} TileStep(cur: seq<u16>, before: seq<u16>, alphaPixels: Option<seq<u16>>, textureWidth: nat, textureHeight: nat,
                                    cammo: Cammo, x: nat, y: nat, i: nat, k: nat, v: u16)
    requires TileState(cur, before, alphaPixels, textureWidth, textureHeight, cammo, x, y, i, k)
    requires y + i < textureHeight && x + k < textureWidth && i < cammo.height && k < cammo.width
    requires Success(v) == TexelAt(before, alphaPixels, textureWidth, textureHeight, cammo, y + i, x + k, i, k)
    ensures Idx(textureWidth, y + i, x + k) < |cur|
    ensures TileState(cur[Idx(textureWidth, y + i, x + k) := v], before, alphaPixels, textureWidth, textureHeight, cammo, x, y, i, k + 1)
  {
    var j0 := Idx(textureWidth, y + i, x + k);
    IdxBound(textureWidth, textureHeight, y + i, x + k);
    IdxUnique(textureWidth, y + i, x + k);
    IdxBounds(textureWidth, textureHeight);
    var next := cur[j0 := v];
    forall py: nat, px: nat | py < textureHeight && px < textureWidth
      && !(InTile(py, px, x, y, cammo.width, cammo.height) && Before(py, px, x, y, i, k + 1))
      ensures next[Idx(textureWidth, py, px)] == before[Idx(textureWidth, py, px)]
    {
    }
    forall py: nat, px: nat | py < textureHeight && px < textureWidth
      && InTile(py, px, x, y, cammo.width, cammo.height) && Before(py, px, x, y, i, k + 1)
      ensures Success(next[Idx(textureWidth, py, px)]) == TexelAt(before, alphaPixels, textureWidth, textureHeight, cammo, py, px, py - y, px - x)
    {
    }
  }

  /** At the end of a row of the tile the pass moves to the next row. */
  lemma {:induction false} TileRowEnd(cur: seq<u16>, before: seq<u16>, alphaPixels: Option<seq<u16>>, textureWidth: nat, textureHeight: nat,
                                      cammo: Cammo, x: nat, y: nat, i: nat, k: nat)
    requires TileState(cur, before, alphaPixels, textureWidth, textureHeight, cammo, x, y, i, k)
    requires x + k >= x + cammo.width || x + k >= textureWidth
    ensures TileState(cur, before, alphaPixels, textureWidth, textureHeight, cammo, x, y, i + 1, 0)
  {
  }

  /** At the end of the last row the whole tile is done. */
  lemma {:induction false} TileEnd(cur: seq<u16>, before: seq<u16>, alphaPixels: Option<seq<u16>>, textureWidth: nat, textureHeight: nat,
                                   cammo: Cammo, x: nat, y: nat, i: nat)
    requires TileState(cur, before, alphaPixels, textureWidth, textureHeight, cammo, x, y, i, 0)
    requires y + i >= y + cammo.height || y + i >= textureHeight
    ensures TileFrame(cur, before, textureWidth, textureHeight, x, y, cammo.width, cammo.height)
    ensures TileApplied(cur, before, alphaPixels, textureWidth, textureHeight, cammo, x, y)
  {
  }

  /**
   * TexturePostProcessing.ApplyCammoTile: texture pixel (y + i, x + k) of the
   * tile takes its value under camouflage pixel (i, k), row by row. A palette
   * lookup that fails stops the pass with the pixels before it already
   * written. Nothing outside the tile changes.
   */
  method ApplyCammoTile(colorPixels: array<u16>, alphaPixels: Option<seq<u16>>, textureWidth: nat, textureHeight: nat,
                        cammoColorPixels: seq<u16>, cammoAlphaPixels: Option<seq<u16>>, x: nat, y: nat,
                        cammoWidth: nat, cammoHeight: nat, cammoPalette: seq<u16>, cammoAlphaMask: u16, otherMask: u16)
    returns (r: Result<()>)
    requires Fits(colorPixels[..], alphaPixels, textureWidth, textureHeight)
    requires Cammo(cammoColorPixels, cammoAlphaPixels, cammoWidth, cammoHeight, cammoPalette, cammoAlphaMask, otherMask).Valid()
    modifies colorPixels
    ensures TileFrame(colorPixels[..], old(colorPixels[..]), textureWidth, textureHeight, x, y, cammoWidth, cammoHeight)
    ensures r.Success? ==> TileApplied(colorPixels[..], old(colorPixels[..]), alphaPixels, textureWidth, textureHeight,
                                       Cammo(cammoColorPixels, cammoAlphaPixels, cammoWidth, cammoHeight, cammoPalette, cammoAlphaMask, otherMask), x, y)
    ensures r.Failure? ==> r.error == ArgumentOutOfRange
    ensures r.Failure? ==> TileFailed(colorPixels[..], old(colorPixels[..]), alphaPixels, textureWidth, textureHeight,
                     Cammo(cammoColorPixels, cammoAlphaPixels, cammoWidth, cammoHeight, cammoPalette, cammoAlphaMask, otherMask), x, y)
  {
    ghost var pixels := colorPixels[..];
    ghost var cammo := Cammo(cammoColorPixels, cammoAlphaPixels, cammoWidth, cammoHeight, cammoPalette, cammoAlphaMask, otherMask);
    var otherWidth := (cammoWidth * 256) / cammoWidth;
    var otherHeight := (cammoHeight * 256) / cammoHeight;
    Step256(cammoWidth);
    Step256(cammoHeight);

    var right: int := x + cammoWidth;
    var bottom: int := y + cammoHeight;
    if right > textureWidth {
      right := textureWidth;
    }
    if bottom > textureHeight {
      bottom := textureHeight;
    }
    var pixOffset := textureWidth * y + x;

    var i := 0;
    while i < bottom - y
      invariant 0 <= i && (y <= bottom ==> i <= bottom - y)
      invariant TileState(colorPixels[..], pixels, alphaPixels, textureWidth, textureHeight, cammo, x, y, i, 0)
    {
      var cammoPixY := ((i * otherHeight) / 256) * cammoWidth;
      var pixY := (i * textureWidth) + pixOffset;
      assert (y + i) * textureWidth == y * textureWidth + i * textureWidth;

      var k := 0;
      while k < right - x
        invariant 0 <= k && (x <= right ==> k <= right - x)
        invariant TileState(colorPixels[..], pixels, alphaPixels, textureWidth, textureHeight, cammo, x, y, i, k)
      {
        var cammoPixX := (k * otherWidth) / 256;
        var pixX := k;
        assert pixY + pixX == Idx(textureWidth, y + i, x + k);
        assert cammoPixY + cammoPixX == Idx(cammoWidth, i, k);
        IdxBound(cammoWidth, cammoHeight, i, k);
        IdxBound(textureWidth, textureHeight, y + i, x + k);

        var cammoColorPixel := cammoColorPixels[cammoPixY + cammoPixX];
        var cammoAlphaPixel := if cammoAlphaPixels.None? then None else Some(cammoAlphaPixels.value[cammoPixY + cammoPixX]);
        var colorPixel := colorPixels[pixY + pixX];
        var alphaPixel := if alphaPixels.None? then None else Some(alphaPixels.value[pixY + pixX]);
        var res := CammoPixel(colorPixel, alphaPixel, cammoColorPixel, cammoAlphaPixel, cammoPalette, cammoAlphaMask, otherMask);
        assert colorPixel == pixels[Idx(textureWidth, y + i, x + k)];
        assert res == TexelAt(pixels, alphaPixels, textureWidth, textureHeight, cammo, y + i, x + k, i, k);
        if res.Failure? {
          assert InTile(y + i, x + k, x, y, cammoWidth, cammoHeight);
          assert TileStopsAt(colorPixels[..], pixels, alphaPixels, textureWidth, textureHeight, cammo, x, y, i, k);
          return Failure(ArgumentOutOfRange);
        }
        TileStep(colorPixels[..], pixels, alphaPixels, textureWidth, textureHeight, cammo, x, y, i, k, res.value);
        colorPixels[pixY + pixX] := res.value;
        k := k + 1;
      }
      TileRowEnd(colorPixels[..], pixels, alphaPixels, textureWidth, textureHeight, cammo, x, y, i, k);
      i := i + 1;
    }
    TileEnd(colorPixels[..], pixels, alphaPixels, textureWidth, textureHeight, cammo, x, y, i);
    r := Success(());
  }

  // ---------------------------------------------------------------------------
  // ApplyCammo

  /** Both camouflage planes hold cammoHeight rows of cammoWidth pixels. */
  predicate SegmentsFit(cammoColorPixels: seq<u16>, cammoAlphaPixels: Option<seq<u16>>, cammoWidth: nat, cammoHeight: nat)
  {
    cammoWidth * cammoHeight <= |cammoColorPixels|
    && (cammoAlphaPixels.Some? ==> cammoWidth * cammoHeight <= |cammoAlphaPixels.value|)
  }

  /**
   * The camouflage every tile uses: the first row of the camouflage texture is
   * its palette and the rows below it its body; the key colour is the first
   * palette pixel and no texture pixel value is masked (otherMask 0).
   */
  function TileCammo(cammoColorPixels: seq<u16>, cammoAlphaPixels: Option<seq<u16>>, cammoWidth: nat, cammoHeight: nat): (c: Cammo)
    requires cammoWidth > 0 && cammoHeight > 1 && SegmentsFit(cammoColorPixels, cammoAlphaPixels, cammoWidth, cammoHeight)
    ensures c.Valid() && c.width == cammoWidth && c.height == cammoHeight - 1
    ensures |c.palette| == cammoWidth
  {
    MulMono(1, cammoHeight, cammoWidth);
    assert (cammoHeight - 1) * cammoWidth == cammoWidth * cammoHeight - cammoWidth;
    Cammo(cammoColorPixels[cammoWidth .. cammoWidth * cammoHeight],
          if cammoAlphaPixels.Some? then Some(cammoAlphaPixels.value[cammoWidth .. cammoWidth * cammoHeight]) else None,
          cammoWidth, cammoHeight - 1, cammoColorPixels[..cammoWidth], cammoColorPixels[0], 0)
  }

  /**
   * Texture pixel (py, px) under the camouflage repeated over the whole
   * texture: it lies under camouflage pixel (py mod height, px mod width).
   */
  function CammoAt(before: seq<u16>, alphaPixels: Option<seq<u16>>, textureWidth: nat, textureHeight: nat,
                   cammo: Cammo, py: nat, px: nat): Result<u16>
    requires Fits(before, alphaPixels, textureWidth, textureHeight) && cammo.Valid()
    requires py < textureHeight && px < textureWidth
  {
    TexelAt(before, alphaPixels, textureWidth, textureHeight, cammo, py, px, py % cammo.height, px % cammo.width)
  }

  /** Pixels done once every tile before the one at (x, y) is done: the rows above y and the band of y to the left of x. */
  predicate Done(py: nat, px: nat, x: nat, y: nat, height: nat)
  {
    py < y || (py < y + height && px < x)
  }

  /** Every texture pixel holds its value under the camouflage, and nothing past the texture changed. */
  predicate CammoApplied(cur: seq<u16>, before: seq<u16>, alphaPixels: Option<seq<u16>>, textureWidth: nat, textureHeight: nat, cammo: Cammo)
  {
    IdxBounds(textureWidth, textureHeight);
    && Fits(before, alphaPixels, textureWidth, textureHeight) && cammo.Valid() && |cur| == |before|
    && (forall j :: textureHeight * textureWidth <= j < |cur| ==> cur[j] == before[j])
    && (forall py: nat, px: nat :: py < textureHeight && px < textureWidth
          ==> Success(cur[Idx(textureWidth, py, px)]) == CammoAt(before, alphaPixels, textureWidth, textureHeight, cammo, py, px))
  }

  /** Every texture pixel holds its old value or its value under the camouflage, and nothing past the texture changed. */
  predicate CammoPartial(cur: seq<u16>, before: seq<u16>, alphaPixels: Option<seq<u16>>, textureWidth: nat, textureHeight: nat, cammo: Cammo)
  {
    IdxBounds(textureWidth, textureHeight);
    && Fits(before, alphaPixels, textureWidth, textureHeight) && cammo.Valid() && |cur| == |before|
    && (forall j :: textureHeight * textureWidth <= j < |cur| ==> cur[j] == before[j])
    && (forall py: nat, px: nat :: py < textureHeight && px < textureWidth ==>
          || cur[Idx(textureWidth, py, px)] == before[Idx(textureWidth, py, px)]
          || Success(cur[Idx(textureWidth, py, px)]) == CammoAt(before, alphaPixels, textureWidth, textureHeight, cammo, py, px))
  }

  /** Some texture pixel has a palette entry past the palette. */
  predicate CammoFails(before: seq<u16>, alphaPixels: Option<seq<u16>>, textureWidth: nat, textureHeight: nat, cammo: Cammo)
  {
    && Fits(before, alphaPixels, textureWidth, textureHeight) && cammo.Valid()
    && exists py: nat, px: nat :: py < textureHeight && px < textureWidth
         && CammoAt(before, alphaPixels, textureWidth, textureHeight, cammo, py, px).Failure?
  }

  /** The camouflage pass once every tile before the one at (x, y) is done. */
  predicate CammoState(cur: seq<u16>, before: seq<u16>, alphaPixels: Option<seq<u16>>, textureWidth: nat, textureHeight: nat,
                       cammo: Cammo, x: nat, y: nat)
  {
    IdxBounds(textureWidth, textureHeight);
    && Fits(before, alphaPixels, textureWidth, textureHeight) && cammo.Valid() && |cur| == |before|
    && (forall j :: textureHeight * textureWidth <= j < |cur| ==> cur[j] == before[j])
    && (forall py: nat, px: nat :: py < textureHeight && px < textureWidth && !Done(py, px, x, y, cammo.height)
          ==> cur[Idx(textureWidth, py, px)] == before[Idx(textureWidth, py, px)])
    && (forall py: nat, px: nat :: py < textureHeight && px < textureWidth && Done(py, px, x, y, cammo.height)
          ==> Success(cur[Idx(textureWidth, py, px)]) == CammoAt(before, alphaPixels, textureWidth, textureHeight, cammo, py, px))
  }

  /** Pixels the pass has written when it is at pixel (y + i, x + k) of the tile at (x, y): the tiles before it and the tile's pixels before (y + i, x + k). */
  predicate Reached(py: nat, px: nat, x: nat, y: nat, i: nat, k: nat, width: nat, height: nat)
  {
    Done(py, px, x, y, height) || (InTile(py, px, x, y, width, height) && Before(py, px, x, y, i, k))
  }

  /**
   * The pass stopped at texture pixel (y + i, x + k) of the tile at (x, y), a
   * tile on the camouflage grid: every pixel the pass reached before it holds
   * its value under the camouflage, every other pixel is unchanged, and its own
   * palette lookup fails.
   */
  predicate CammoStopsAt(cur: seq<u16>, before: seq<u16>, alphaPixels: Option<seq<u16>>, textureWidth: nat, textureHeight: nat,
                         cammo: Cammo, x: nat, y: nat, i: nat, k: nat)
  {
    IdxBounds(textureWidth, textureHeight);
    && Fits(before, alphaPixels, textureWidth, textureHeight) && cammo.Valid() && |cur| == |before|
    && x % cammo.width == 0 && y % cammo.height == 0
    && i < cammo.height && k < cammo.width && y + i < textureHeight && x + k < textureWidth
    && (forall j :: textureHeight * textureWidth <= j < |cur| ==> cur[j] == before[j])
    && (forall py: nat, px: nat :: py < textureHeight && px < textureWidth && !Reached(py, px, x, y, i, k, cammo.width, cammo.height)
          ==> cur[Idx(textureWidth, py, px)] == before[Idx(textureWidth, py, px)])
    && (forall py: nat, px: nat :: py < textureHeight && px < textureWidth && Reached(py, px, x, y, i, k, cammo.width, cammo.height)
          ==> Success(cur[Idx(textureWidth, py, px)]) == CammoAt(before, alphaPixels, textureWidth, textureHeight, cammo, py, px))
    && CammoAt(before, alphaPixels, textureWidth, textureHeight, cammo, y + i, x + k).Failure?
  }

  /** Inside the tile at (x, y), with x and y whole multiples of its width and height, a pixel's place in the tile is its place modulo the tile. */
  lemma {:induction false} TileOffsets(x: nat, y: nat, tX: nat, tY: nat, width: nat, height: nat, py: nat, px: nat)
    requires x == tX * width && y == tY * height
    requires InTile(py, px, x, y, width, height)
    ensures py % height == py - y && px % width == px - x
  {
    DivModOffset(tY, height, py - y);
    DivModOffset(tX, width, px - x);
  }

  /** A texture pixel's value under the camouflage depends on no other pixel of the texture. */
  lemma {:induction false} TexelOwnPixel(a: seq<u16>, b: seq<u16>, alphaPixels: Option<seq<u16>>, textureWidth: nat, textureHeight: nat,
                                         cammo: Cammo, py: nat, px: nat, cy: nat, cx: nat)
    requires Fits(a, alphaPixels, textureWidth, textureHeight) && |b| == |a| && cammo.Valid()
    requires py < textureHeight && px < textureWidth && cy < cammo.height && cx < cammo.width
    requires Idx(textureWidth, py, px) < |a| && a[Idx(textureWidth, py, px)] == b[Idx(textureWidth, py, px)]
    ensures TexelAt(a, alphaPixels, textureWidth, textureHeight, cammo, py, px, cy, cx)
         == TexelAt(b, alphaPixels, textureWidth, textureHeight, cammo, py, px, cy, cx)
  {
  }

  /**
   * Inside the tile at (x, y), a pixel the pass has not reached yet holds its
   * value from before the pass, and its place in the tile is its place modulo
   * the camouflage.
   */
  lemma {:induction false} TileIsCammo(mid: seq<u16>, before: seq<u16>, alphaPixels: Option<seq<u16>>, textureWidth: nat, textureHeight: nat,
                                       cammo: Cammo, x: nat, y: nat, tX: nat, tY: nat, py: nat, px: nat)
    requires CammoState(mid, before, alphaPixels, textureWidth, textureHeight, cammo, x, y)
    requires x == tX * cammo.width && y == tY * cammo.height
    requires py < textureHeight && px < textureWidth && InTile(py, px, x, y, cammo.width, cammo.height)
    ensures Fits(mid, alphaPixels, textureWidth, textureHeight)
    ensures TexelAt(mid, alphaPixels, textureWidth, textureHeight, cammo, py, px, py - y, px - x)
         == CammoAt(before, alphaPixels, textureWidth, textureHeight, cammo, py, px)
  {
    TileOffsets(x, y, tX, tY, cammo.width, cammo.height, py, px);
    IdxBound(textureWidth, textureHeight, py, px);
    assert !Done(py, px, x, y, cammo.height);
    TexelOwnPixel(before, mid, alphaPixels, textureWidth, textureHeight, cammo, py, px, py - y, px - x);
  }

  /** A tile applied in full moves the pass on to the next tile of the band. */
  lemma {:induction false} CammoTileStep(mid: seq<u16>, after: seq<u16>, before: seq<u16>, alphaPixels: Option<seq<u16>>,
                                         textureWidth: nat, textureHeight: nat, cammo: Cammo, x: nat, y: nat, tX: nat, tY: nat)
    requires CammoState(mid, before, alphaPixels, textureWidth, textureHeight, cammo, x, y)
    requires x == tX * cammo.width && y == tY * cammo.height
    requires TileFrame(after, mid, textureWidth, textureHeight, x, y, cammo.width, cammo.height)
    requires TileApplied(after, mid, alphaPixels, textureWidth, textureHeight, cammo, x, y)
    ensures CammoState(after, before, alphaPixels, textureWidth, textureHeight, cammo, x + cammo.width, y)
  {
    IdxBounds(textureWidth, textureHeight);
    forall py: nat, px: nat | py < textureHeight && px < textureWidth && Done(py, px, x + cammo.width, y, cammo.height)
      ensures Success(after[Idx(textureWidth, py, px)]) == CammoAt(before, alphaPixels, textureWidth, textureHeight, cammo, py, px)
    {
      if InTile(py, px, x, y, cammo.width, cammo.height) {
        TileIsCammo(mid, before, alphaPixels, textureWidth, textureHeight, cammo, x, y, tX, tY, py, px);
      }
    }
  }

  /** A tile that fails leaves every pixel old or new, and names a pixel whose lookup fails. */
  lemma {:induction false} CammoTileFails(mid: seq<u16>, after: seq<u16>, before: seq<u16>, alphaPixels: Option<seq<u16>>,
                                          textureWidth: nat, textureHeight: nat, cammo: Cammo, x: nat, y: nat, tX: nat, tY: nat)
    requires CammoState(mid, before, alphaPixels, textureWidth, textureHeight, cammo, x, y)
    requires x == tX * cammo.width && y == tY * cammo.height
    requires TileFrame(after, mid, textureWidth, textureHeight, x, y, cammo.width, cammo.height)
    requires TilePartial(after, mid, alphaPixels, textureWidth, textureHeight, cammo, x, y)
    requires TileFails(mid, alphaPixels, textureWidth, textureHeight, cammo, x, y)
    ensures CammoPartial(after, before, alphaPixels, textureWidth, textureHeight, cammo)
    ensures CammoFails(before, alphaPixels, textureWidth, textureHeight, cammo)
  {
    IdxBounds(textureWidth, textureHeight);
    forall py: nat, px: nat | py < textureHeight && px < textureWidth
      ensures || after[Idx(textureWidth, py, px)] == before[Idx(textureWidth, py, px)]
              || Success(after[Idx(textureWidth, py, px)]) == CammoAt(before, alphaPixels, textureWidth, textureHeight, cammo, py, px)
    {
      if InTile(py, px, x, y, cammo.width, cammo.height) {
        TileIsCammo(mid, before, alphaPixels, textureWidth, textureHeight, cammo, x, y, tX, tY, py, px);
      }
    }
    var py: nat, px: nat :| py < textureHeight && px < textureWidth && InTile(py, px, x, y, cammo.width, cammo.height)
      && TexelAt(mid, alphaPixels, textureWidth, textureHeight, cammo, py, px, py - y, px - x).Failure?;
    TileIsCammo(mid, before, alphaPixels, textureWidth, textureHeight, cammo, x, y, tX, tY, py, px);
  }

  /** A tile that stops at one of its pixels stops the whole pass there. */
  lemma {:induction false} CammoTileStops(mid: seq<u16>, after: seq<u16>, before: seq<u16>, alphaPixels: Option<seq<u16>>,
                                          textureWidth: nat, textureHeight: nat, cammo: Cammo, x: nat, y: nat, tX: nat, tY: nat, i: nat, k: nat)
    requires CammoState(mid, before, alphaPixels, textureWidth, textureHeight, cammo, x, y)
    requires x == tX * cammo.width && y == tY * cammo.height
    requires TileStopsAt(after, mid, alphaPixels, textureWidth, textureHeight, cammo, x, y, i, k)
    ensures CammoStopsAt(after, before, alphaPixels, textureWidth, textureHeight, cammo, x, y, i, k)
  {
    IdxBounds(textureWidth, textureHeight);
    DivModOffset(tX, cammo.width, 0);
    DivModOffset(tY, cammo.height, 0);
    forall py: nat, px: nat | py < textureHeight && px < textureWidth && !Reached(py, px, x, y, i, k, cammo.width, cammo.height)
      ensures after[Idx(textureWidth, py, px)] == before[Idx(textureWidth, py, px)]
    {
      assert !Done(py, px, x, y, cammo.height);
      assert !(InTile(py, px, x, y, cammo.width, cammo.height) && Before(py, px, x, y, i, k));
    }
    forall py: nat, px: nat | py < textureHeight && px < textureWidth && Reached(py, px, x, y, i, k, cammo.width, cammo.height)
      ensures Success(after[Idx(textureWidth, py, px)]) == CammoAt(before, alphaPixels, textureWidth, textureHeight, cammo, py, px)
    {
      if InTile(py, px, x, y, cammo.width, cammo.height) {
        TileIsCammo(mid, before, alphaPixels, textureWidth, textureHeight, cammo, x, y, tX, tY, py, px);
      }
    }
    TileIsCammo(mid, before, alphaPixels, textureWidth, textureHeight, cammo, x, y, tX, tY, y + i, x + k);
  }

  /**
   * A failed pass: every pixel old or new, some pixel's lookup failing, and the
   * pass stopped at such a pixel of a tile on the camouflage grid with exactly
   * the pixels it reached before it written.
   */
  ghost predicate CammoFailed(cur: seq<u16>, before: seq<u16>, alphaPixels: Option<seq<u16>>, textureWidth: nat, textureHeight: nat, cammo: Cammo)
  {
    && CammoPartial(cur, before, alphaPixels, textureWidth, textureHeight, cammo)
    && CammoFails(before, alphaPixels, textureWidth, textureHeight, cammo)
    && exists x: nat, y: nat, i: nat, k: nat :: CammoStopsAt(cur, before, alphaPixels, textureWidth, textureHeight, cammo, x, y, i, k)
  }

  /** What a failing tile leaves of the whole pass: CammoTileFails and CammoTileStops together. */
  lemma {:induction false} CammoStopped(mid: seq<u16>, after: seq<u16>, before: seq<u16>, alphaPixels: Option<seq<u16>>,
                                        textureWidth: nat, textureHeight: nat, cammo: Cammo, x: nat, y: nat, tX: nat, tY: nat)
    requires CammoState(mid, before, alphaPixels, textureWidth, textureHeight, cammo, x, y)
    requires x == tX * cammo.width && y == tY * cammo.height
    requires TileFrame(after, mid, textureWidth, textureHeight, x, y, cammo.width, cammo.height)
    requires TileFailed(after, mid, alphaPixels, textureWidth, textureHeight, cammo, x, y)
    ensures CammoFailed(after, before, alphaPixels, textureWidth, textureHeight, cammo)
  {
    CammoTileFails(mid, after, before, alphaPixels, textureWidth, textureHeight, cammo, x, y, tX, tY);
    var i: nat, k: nat :| TileStopsAt(after, mid, alphaPixels, textureWidth, textureHeight, cammo, x, y, i, k);
    CammoTileStops(mid, after, before, alphaPixels, textureWidth, textureHeight, cammo, x, y, tX, tY, i, k);
    assert CammoStopsAt(after, before, alphaPixels, textureWidth, textureHeight, cammo, x, y, i, k);
  }

  /** Past the right edge, the band is done and the pass moves to the next band. */
  lemma {:induction false} CammoRowEnd(cur: seq<u16>, before: seq<u16>, alphaPixels: Option<seq<u16>>, textureWidth: nat, textureHeight: nat,
                                       cammo: Cammo, x: nat, y: nat)
    requires CammoState(cur, before, alphaPixels, textureWidth, textureHeight, cammo, x, y)
    requires x >= textureWidth
    ensures CammoState(cur, before, alphaPixels, textureWidth, textureHeight, cammo, 0, y + cammo.height)
  {
  }

  /** Past the bottom edge, every pixel is done. */
  lemma {:induction false} CammoEnd(cur: seq<u16>, before: seq<u16>, alphaPixels: Option<seq<u16>>, textureWidth: nat, textureHeight: nat,
                                    cammo: Cammo, y: nat)
    requires CammoState(cur, before, alphaPixels, textureWidth, textureHeight, cammo, 0, y)
    requires y >= textureHeight
    ensures CammoApplied(cur, before, alphaPixels, textureWidth, textureHeight, cammo)
  {
  }

  /**
   * One band of ApplyCammo's tile loop: the tiles at x = 0, cammoWidth, ...
   * up to and including textureWidth, in the band at y.
   */
  method ApplyCammoBand(colorPixels: array<u16>, alphaPixels: Option<seq<u16>>, textureWidth: nat, textureHeight: nat,
                        cammoColorWithoutPalette: seq<u16>, cammoAlphaWithoutPalette: Option<seq<u16>>,
                        cammoWidth: nat, tileHeight: nat, cammoPalette: seq<u16>, cammoAlphaMask: u16,
                        y: nat, ghost tY: nat, ghost before: seq<u16>, ghost cammo: Cammo)
    returns (r: Result<()>)
    requires cammo == Cammo(cammoColorWithoutPalette, cammoAlphaWithoutPalette, cammoWidth, tileHeight, cammoPalette, cammoAlphaMask, 0)
    requires y == tY * tileHeight && colorPixels.Length == |before|
    requires CammoState(colorPixels[..], before, alphaPixels, textureWidth, textureHeight, cammo, 0, y)
    modifies colorPixels
    ensures r.Success? ==> CammoState(colorPixels[..], before, alphaPixels, textureWidth, textureHeight, cammo, 0, y + tileHeight)
    ensures r.Failure? ==> r.error == ArgumentOutOfRange && CammoFailed(colorPixels[..], before, alphaPixels, textureWidth, textureHeight, cammo)
  {
    var x := 0;
    ghost var tX := 0;
    while x <= textureWidth
      invariant x == tX * cammoWidth && x <= textureWidth + cammoWidth
      invariant colorPixels.Length == |before|
      invariant CammoState(colorPixels[..], before, alphaPixels, textureWidth, textureHeight, cammo, x, y)
      decreases textureWidth + cammoWidth - x
    {
      ghost var mid := colorPixels[..];
      var t := ApplyCammoTile(colorPixels, alphaPixels, textureWidth, textureHeight, cammoColorWithoutPalette, cammoAlphaWithoutPalette,
                              x, y, cammoWidth, tileHeight, cammoPalette, cammoAlphaMask, 0);
      if t.Failure? {
        CammoStopped(mid, colorPixels[..], before, alphaPixels, textureWidth, textureHeight, cammo, x, y, tX, tY);
        return Failure(t.error);
      }
      CammoTileStep(mid, colorPixels[..], before, alphaPixels, textureWidth, textureHeight, cammo, x, y, tX, tY);
      assert (tX + 1) * cammoWidth == x + cammoWidth;
      x := x + cammoWidth;
      tX := tX + 1;
    }
    CammoRowEnd(colorPixels[..], before, alphaPixels, textureWidth, textureHeight, cammo, x, y);
    r := Success(());
  }

  /**
   * TexturePostProcessing.ApplyCammo: the camouflage body is repeated over the
   * texture in tiles cammoWidth wide and cammoHeight - 1 high, so every texture
   * pixel (py, px) is blended with camouflage pixel (py mod (cammoHeight - 1),
   * px mod cammoWidth) below the palette row. A camouflage plane too short for
   * its width and height fails before anything changes; a palette lookup that
   * fails stops the pass there, with exactly the pixels reached before it written.
   */
  method ApplyCammo(colorPixels: array<u16>, alphaPixels: Option<seq<u16>>, textureWidth: nat, textureHeight: nat,
                    cammoColorPixels: seq<u16>, cammoAlphaPixels: Option<seq<u16>>, cammoWidth: nat, cammoHeight: nat)
    returns (r: Result<()>)
    requires cammoWidth > 0 && cammoHeight > 1
    requires Fits(colorPixels[..], alphaPixels, textureWidth, textureHeight)
    modifies colorPixels
    ensures !SegmentsFit(cammoColorPixels, cammoAlphaPixels, cammoWidth, cammoHeight) ==>
      r == Failure(Argument) && colorPixels[..] == old(colorPixels[..])
    ensures r.Success? ==> SegmentsFit(cammoColorPixels, cammoAlphaPixels, cammoWidth, cammoHeight)
    ensures r.Success? ==> CammoApplied(colorPixels[..], old(colorPixels[..]), alphaPixels, textureWidth, textureHeight,
                      TileCammo(cammoColorPixels, cammoAlphaPixels, cammoWidth, cammoHeight))
    ensures r.Failure? && SegmentsFit(cammoColorPixels, cammoAlphaPixels, cammoWidth, cammoHeight) ==>
      && r.error == ArgumentOutOfRange
      && CammoFailed(colorPixels[..], old(colorPixels[..]), alphaPixels, textureWidth, textureHeight,
                     TileCammo(cammoColorPixels, cammoAlphaPixels, cammoWidth, cammoHeight))
  {
    if cammoWidth * cammoHeight > |cammoColorPixels| {
      return Failure(Argument);
    }
    if cammoAlphaPixels.Some? && cammoWidth * cammoHeight > |cammoAlphaPixels.value| {
      return Failure(Argument);
    }
    MulMono(1, cammoHeight, cammoWidth);
    var cammoPalette := cammoColorPixels[..cammoWidth];
    var cammoColorWithoutPalette := cammoColorPixels[cammoWidth .. cammoWidth * cammoHeight];
    var cammoAlphaWithoutPalette := if cammoAlphaPixels.None? then None
      else Some(cammoAlphaPixels.value[cammoWidth .. cammoWidth * cammoHeight]);
    ghost var cammo := TileCammo(cammoColorPixels, cammoAlphaPixels, cammoWidth, cammoHeight);
    assert cammo == Cammo(cammoColorWithoutPalette, cammoAlphaWithoutPalette, cammoWidth, cammoHeight - 1, cammoPalette, cammoColorPixels[0], 0);
    ghost var before := colorPixels[..];

    var y := 0;
    ghost var tY := 0;
    while y <= textureHeight
      invariant y == tY * (cammoHeight - 1) && y <= textureHeight + cammoHeight - 1
      invariant colorPixels.Length == |before|
      invariant CammoState(colorPixels[..], before, alphaPixels, textureWidth, textureHeight, cammo, 0, y)
      decreases textureHeight + cammoHeight - 1 - y
    {
      var t := ApplyCammoBand(colorPixels, alphaPixels, textureWidth, textureHeight, cammoColorWithoutPalette, cammoAlphaWithoutPalette,
                              cammoWidth, cammoHeight - 1, cammoPalette, cammoColorPixels[0], y, tY, before, cammo);
      if t.Failure? {
        return t;
      }
      assert (tY + 1) * (cammoHeight - 1) == y + (cammoHeight - 1);
      y := y + (cammoHeight - 1);
      tY := tY + 1;
    }
    CammoEnd(colorPixels[..], before, alphaPixels, textureWidth, textureHeight, cammo, y);
    r := Success(());
  }
}
