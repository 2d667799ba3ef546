// Conversion of a tile of a memory bitmap into 32-bit texels in video
// memory (VideoMemoryGraphicsDriver::BitmapToVideoMem and
// BitmapToVideoMemOpaque). A texel packs alpha, red, green and blue into
// bits 24, 16, 8 and 0. The destination buffer is a two-dimensional array
// whose rows stand for the pitch-separated lines of texture memory.
module VideoMemTexels {
  import opened CInt

  /** Allegro's transparent ("mask") pixel value at each colour depth. */
  const MASK_COLOR_8: int := 0
  const MASK_COLOR_16: int := 0xF81F
  const MASK_COLOR_32: int := 0x00FF_00FF

  const ALPHA_UNIT: int := 0x100_0000
  const RED_UNIT: int := 0x1_0000
  const GREEN_UNIT: int := 0x100

  datatype Rgb = Rgb(r: Byte, g: Byte, b: Byte)

  /** Allegro's getr/getg/getb for 8-bit (through the palette) and 16-bit
      pixels (through its scale tables), supplied by the caller. */
  datatype ColourDecoder = ColourDecoder(rgb8: int -> Rgb, rgb16: int -> Rgb)

  /** A memory bitmap: its colour depth and its rows of pixel values. */
  datatype Image = Image(colorDepth: int, rows: seq<seq<int>>)

  /** The part of the bitmap that goes into one texture. */
  datatype TextureTile = TextureTile(x: int, y: int, width: int, height: int)

  predicate TileInside(img: Image, t: TextureTile)
  {
    0 <= t.x && 0 <= t.y && 0 <= t.width && 0 <= t.height && t.y + t.height <= |img.rows| &&
    forall j :: t.y <= j < t.y + t.height ==> t.x + t.width <= |img.rows[j]|
  }

  /** The pixel at (x, y) of the tile. */
  function Px(img: Image, t: TextureTile, x: int, y: int): int
    requires TileInside(img, t) && 0 <= x < t.width && 0 <= y < t.height
  {
    img.rows[t.y + y][t.x + x]
  }

  /** Only 8, 16 and 32-bit bitmaps are converted. */
  predicate Converted(depth: int)
  {
    depth == 8 || depth == 16 || depth == 32
  }

  predicate IsMask(depth: int, v: int)
  {
    (depth == 8 && v == MASK_COLOR_8) || (depth == 16 && v == MASK_COLOR_16) || (depth == 32 && v == MASK_COLOR_32)
  }

  // ---------------------------------------------------------------------
  // Texel packing

  /** VMEMCOLOR_RGBA: each component is cut to its low 8 bits. */
  function Pack(r: int, g: int, b: int, a: int): (c: int)
    ensures 0 <= c < UINT32_LIMIT
  {
    (a % 256) * ALPHA_UNIT + (r % 256) * RED_UNIT + (g % 256) * GREEN_UNIT + b % 256
  }

  function AlphaOf(c: int): int { c / ALPHA_UNIT % 256 }
  function RedOf(c: int): int { c / RED_UNIT % 256 }
  function GreenOf(c: int): int { c / GREEN_UNIT % 256 }
  function BlueOf(c: int): int { c % 256 }

  /** The components of a packed texel read back unchanged. */
  lemma PackRoundTrip(r: Byte, g: Byte, b: Byte, a: Byte)
    ensures AlphaOf(Pack(r, g, b, a)) == a && RedOf(Pack(r, g, b, a)) == r
    ensures GreenOf(Pack(r, g, b, a)) == g && BlueOf(Pack(r, g, b, a)) == b
  {
    var low := g * 0x100 + b;
    var mid := r * 0x1_0000 + low;
    ByteMod(a);
    ByteMod(r);
    ByteMod(g);
    ByteMod(b);
    assert Pack(r, g, b, a) == a * ALPHA_UNIT + mid;
    SplitAt(a, mid, ALPHA_UNIT);
    SplitAt(a * 256 + r, low, RED_UNIT);
    assert Pack(r, g, b, a) == (a * 256 + r) * RED_UNIT + low;
    SplitAt(a * 0x1_0000 + r * 256 + g, b, GREEN_UNIT);
    assert Pack(r, g, b, a) == (a * 0x1_0000 + r * 256 + g) * GREEN_UNIT + b;
    SplitAt(a * 256 + r, 0, 256);
    assert (a * 256 + r) % 256 == r;
    assert (a * 0x1_0000 + r * 256 + g) % 256 == g;
  }

  lemma ByteMod(x: Byte)
    ensures x % 256 == x
  {
  }

  /** Masking a texel with 0x00FFFFFF keeps its colour and clears alpha. */
  lemma ClearAlpha(r: Byte, g: Byte, b: Byte, a: Byte)
    ensures Pack(r, g, b, a) % ALPHA_UNIT == Pack(r, g, b, 0)
  {
  }

  /** The colour of a 32-bit pixel, and its alpha. */
  function Colour32(v: int): Rgb
  {
    Rgb(RedOf(v), GreenOf(v), BlueOf(v))
  }

  function ColourOf(dec: ColourDecoder, depth: int, v: int): Rgb
  {
    if depth == 8 then dec.rgb8(v) else if depth == 16 then dec.rgb16(v) else Colour32(v)
  }

  /** A visible pixel: its colour, with full alpha unless a 32-bit bitmap
      carries its own alpha channel. */
  function OpaqueTexel(dec: ColourDecoder, depth: int, hasAlpha: bool, v: int): int
  {
    var c := ColourOf(dec, depth, v);
    Pack(c.r, c.g, c.b, if depth == 32 && hasAlpha then AlphaOf(v) else 0xFF)
  }

  lemma OpaqueTexelChannels(dec: ColourDecoder, depth: int, hasAlpha: bool, v: int)
    ensures var t := OpaqueTexel(dec, depth, hasAlpha, v);
      Rgb(RedOf(t), GreenOf(t), BlueOf(t)) == ColourOf(dec, depth, v) &&
      AlphaOf(t) == (if depth == 32 && hasAlpha then AlphaOf(v) else 0xFF)
  {
    var c := ColourOf(dec, depth, v);
    PackRoundTrip(c.r, c.g, c.b, if depth == 32 && hasAlpha then AlphaOf(v) else 0xFF);
  }

  // ---------------------------------------------------------------------
  // The colour given to a transparent pixel when linear filtering

  /** The tile's pixels left, right, above and below (x, y), those that
      exist inside the tile, in that order. */
  function Neighbours(img: Image, t: TextureTile, x: int, y: int): (ns: seq<int>)
    requires TileInside(img, t) && 0 <= x < t.width && 0 <= y < t.height
    ensures |ns| <= 4
  {
    (if x > 0 then [Px(img, t, x - 1, y)] else []) +
    (if x < t.width - 1 then [Px(img, t, x + 1, y)] else []) +
    (if y > 0 then [Px(img, t, x, y - 1)] else []) +
    (if y < t.height - 1 then [Px(img, t, x, y + 1)] else [])
  }

  /** The colours of the neighbours that are not transparent. */
  function VisibleColours(dec: ColourDecoder, depth: int, ns: seq<int>): (cs: seq<Rgb>)
    ensures |cs| <= |ns|
  {
    if |ns| == 0 then []
    else VisibleColours(dec, depth, ns[..|ns| - 1]) +
         (if IsMask(depth, ns[|ns| - 1]) then [] else [ColourOf(dec, depth, ns[|ns| - 1])])
  }

  function Channel(c: Rgb, k: int): Byte
  {
    if k == 0 then c.r else if k == 1 then c.g else c.b
  }

  function ChannelSum(cs: seq<Rgb>, k: int): nat
  {
    if |cs| == 0 then 0 else ChannelSum(cs[..|cs| - 1], k) + Channel(cs[|cs| - 1], k)
  }

  /** The sum as the 8-bit code accumulates it, in an unsigned char that
      wraps at 256. */
  function ChannelSumWrapped(cs: seq<Rgb>, k: int): Byte
  {
    if |cs| == 0 then 0 else (ChannelSumWrapped(cs[..|cs| - 1], k) + Channel(cs[|cs| - 1], k)) % 256
  }

  /** The transparent texel's colour: the mean of the visible neighbours,
      alpha 0; no visible neighbour gives 0. */
  function AverageTexel(cs: seq<Rgb>): int
  {
    if |cs| == 0 then 0
    else Pack(ChannelSum(cs, 0) / |cs|, ChannelSum(cs, 1) / |cs|, ChannelSum(cs, 2) / |cs|, 0)
  }

  /** The same, with the 8-bit code's wrapping sums; only the 8-bit path
      differs from the mean. */
  function AverageTexelAsWritten(cs: seq<Rgb>, depth: int): (r: int)
    ensures depth != 8 ==> r == AverageTexel(cs)
  {
    if |cs| == 0 then 0
    else if depth == 8 then
      Pack(ChannelSumWrapped(cs, 0) / |cs|, ChannelSumWrapped(cs, 1) / |cs|, ChannelSumWrapped(cs, 2) / |cs|, 0)
    else AverageTexel(cs)
  }

  lemma {:induction false} ChannelSumBounds(cs: seq<Rgb>, k: int, lo: int, hi: int)
    requires forall i :: 0 <= i < |cs| ==> lo <= Channel(cs[i], k) <= hi
    ensures |cs| * lo <= ChannelSum(cs, k) <= |cs| * hi
  {
    if |cs| > 0 {
      var n := |cs|;
      var p := cs[..n - 1];
      forall i | 0 <= i < |p|
        ensures lo <= Channel(p[i], k) <= hi
      {
        assert p[i] == cs[i];
      }
      ChannelSumBounds(p, k, lo, hi);
      assert ChannelSum(cs, k) == ChannelSum(p, k) + Channel(cs[n - 1], k);
      assert (n - 1) * lo + lo == n * lo;
      assert (n - 1) * hi + hi == n * hi;
    }
  }

  /** The filtering colour lies between the darkest and the brightest
      visible neighbour, channel by channel, and keeps zero alpha. */
  lemma AverageWithinNeighbours(cs: seq<Rgb>, k: int, lo: int, hi: int)
    requires 0 < |cs| <= 4 && 0 <= k < 3
    requires forall i :: 0 <= i < |cs| ==> lo <= Channel(cs[i], k) <= hi
    ensures var t := AverageTexel(cs);
      lo <= (if k == 0 then RedOf(t) else if k == 1 then GreenOf(t) else BlueOf(t)) <= hi && AlphaOf(t) == 0
  {
    ChannelSumBounds(cs, 0, 0, 255);
    ChannelSumBounds(cs, 1, 0, 255);
    ChannelSumBounds(cs, 2, 0, 255);
    ChannelSumBounds(cs, k, lo, hi);
    var n := |cs|;
    DivBounds(ChannelSum(cs, 0), n, 0, 255);
    DivBounds(ChannelSum(cs, 1), n, 0, 255);
    DivBounds(ChannelSum(cs, 2), n, 0, 255);
    DivBounds(ChannelSum(cs, k), n, lo, hi);
    PackRoundTrip(ChannelSum(cs, 0) / n, ChannelSum(cs, 1) / n, ChannelSum(cs, 2) / n, 0);
  }

  lemma DivBounds(s: nat, n: int, lo: int, hi: int)
    requires 0 < n <= 4 && n * lo <= s <= n * hi
    ensures lo <= s / n <= hi
  {
    if n == 1 {
    } else if n == 2 {
    } else if n == 3 {
    } else {
    }
  }

  /** The wrapping 8-bit average still has alpha 0. */
  lemma WrappedAverageIsTransparent(cs: seq<Rgb>)
    requires 0 < |cs|
    ensures AlphaOf(AverageTexelAsWritten(cs, 8)) == 0
  {
    var n := |cs|;
    PackRoundTrip(ChannelSumWrapped(cs, 0) / n, ChannelSumWrapped(cs, 1) / n, ChannelSumWrapped(cs, 2) / n, 0);
  }

  /** Two visible neighbours of red 200: the 8-bit code sums 400 in an
      unsigned char, keeps 144 and gives red 72 instead of 200. */
  lemma AsWrittenAverageWraps()
    ensures var cs := [Rgb(200, 0, 0), Rgb(200, 0, 0)];
      RedOf(AverageTexelAsWritten(cs, 8)) == 72 && RedOf(AverageTexel(cs)) == 200
  {
    var cs := [Rgb(200, 0, 0), Rgb(200, 0, 0)];
    assert cs[..1][..0] == [];
    assert ChannelSumWrapped(cs, 0) == 144;
    assert ChannelSum(cs, 0) == 400;
    PackRoundTrip(72, 0, 0, 0);
    PackRoundTrip(200, 0, 0, 0);
  }

  // ---------------------------------------------------------------------
  // The texels of a tile

  /** What a transparent pixel becomes before any fix-up: 0 without linear
      filtering, otherwise the average of its visible neighbours as the code
      computes it (wrapping sums for 8-bit bitmaps). */
  function TransparentTexel(dec: ColourDecoder, img: Image, t: TextureTile, filtering: bool, x: int, y: int): int
    requires TileInside(img, t) && 0 <= x < t.width && 0 <= y < t.height
  {
    if !filtering then 0 else AverageTexelAsWritten(VisibleColours(dec, img.colorDepth, Neighbours(img, t, x, y)), img.colorDepth)
  }

  /** A transparent pixel whose right-hand neighbour is visible takes that
      neighbour's colour with alpha 0; 32-bit bitmaps with an alpha
      channel have no such fix-up. */
  predicate TakesNextColour(img: Image, t: TextureTile, hasAlpha: bool, x: int, y: int)
    requires TileInside(img, t) && 0 <= x < t.width && 0 <= y < t.height
  {
    var d := img.colorDepth;
    IsMask(d, Px(img, t, x, y)) && x + 1 < t.width && !IsMask(d, Px(img, t, x + 1, y)) && !(d == 32 && hasAlpha)
  }

  /** The texel BitmapToVideoMem leaves for pixel (x, y) of the tile. */
  function TexelAt(dec: ColourDecoder, img: Image, t: TextureTile, hasAlpha: bool, filtering: bool, x: int, y: int): int
    requires TileInside(img, t) && 0 <= x < t.width && 0 <= y < t.height
  {
    var d := img.colorDepth;
    var v := Px(img, t, x, y);
    if !IsMask(d, v) then OpaqueTexel(dec, d, hasAlpha, v)
    else if TakesNextColour(img, t, hasAlpha, x, y) then OpaqueTexel(dec, d, hasAlpha, Px(img, t, x + 1, y)) % ALPHA_UNIT
    else TransparentTexel(dec, img, t, filtering, x, y)
  }

  /** Transparent pixels always get alpha 0. */
  lemma MaskTexelIsTransparent(dec: ColourDecoder, img: Image, t: TextureTile, hasAlpha: bool, filtering: bool, x: int, y: int)
    requires TileInside(img, t) && 0 <= x < t.width && 0 <= y < t.height
    requires IsMask(img.colorDepth, Px(img, t, x, y))
    ensures AlphaOf(TexelAt(dec, img, t, hasAlpha, filtering, x, y)) == 0
  {
    if TakesNextColour(img, t, hasAlpha, x, y) {
      var c := ColourOf(dec, img.colorDepth, Px(img, t, x + 1, y));
      ClearAlpha(c.r, c.g, c.b, 0xFF);
      PackRoundTrip(c.r, c.g, c.b, 0);
    } else if filtering {
      var cs := VisibleColours(dec, img.colorDepth, Neighbours(img, t, x, y));
      if |cs| > 0 && img.colorDepth != 8 {
        AverageWithinNeighbours(cs, 0, 0, 255);
      } else if |cs| > 0 {
        WrappedAverageIsTransparent(cs);
      }
    }
  }

  /** Without linear filtering a transparent pixel is all zero unless the
      pixel to its right is visible, whose colour it then carries. */
  lemma UnfilteredMaskTexel(dec: ColourDecoder, img: Image, t: TextureTile, hasAlpha: bool, x: int, y: int)
    requires TileInside(img, t) && 0 <= x < t.width && 0 <= y < t.height
    requires IsMask(img.colorDepth, Px(img, t, x, y))
    ensures var texel := TexelAt(dec, img, t, hasAlpha, false, x, y);
      (!TakesNextColour(img, t, hasAlpha, x, y) ==> texel == 0) &&
      (TakesNextColour(img, t, hasAlpha, x, y) ==>
         Rgb(RedOf(texel), GreenOf(texel), BlueOf(texel)) == ColourOf(dec, img.colorDepth, Px(img, t, x + 1, y)))
  {
    if TakesNextColour(img, t, hasAlpha, x, y) {
      var c := ColourOf(dec, img.colorDepth, Px(img, t, x + 1, y));
      ClearAlpha(c.r, c.g, c.b, 0xFF);
      PackRoundTrip(c.r, c.g, c.b, 0);
    }
  }

  /** A visible pixel keeps its colour, with full alpha or its own. */
  lemma VisibleTexelKeepsColour(dec: ColourDecoder, img: Image, t: TextureTile, hasAlpha: bool, filtering: bool, x: int, y: int)
    requires TileInside(img, t) && 0 <= x < t.width && 0 <= y < t.height
    requires !IsMask(img.colorDepth, Px(img, t, x, y))
    ensures var texel := TexelAt(dec, img, t, hasAlpha, filtering, x, y);
      var v := Px(img, t, x, y);
      Rgb(RedOf(texel), GreenOf(texel), BlueOf(texel)) == ColourOf(dec, img.colorDepth, v) &&
      AlphaOf(texel) == (if img.colorDepth == 32 && hasAlpha then AlphaOf(v) else 0xFF)
  {
    OpaqueTexelChannels(dec, img.colorDepth, hasAlpha, Px(img, t, x, y));
  }

  // ---------------------------------------------------------------------
  // The conversion loops

  /** BitmapToVideoMem: every pixel of the tile becomes TexelAt, for 8,
      16 and 32-bit bitmaps; the rest of the buffer is left alone. */
  method BitmapToVideoMem(dec: ColourDecoder, img: Image, hasAlpha: bool, t: TextureTile, dst: array2<int>, filtering: bool)
    requires TileInside(img, t) && t.height <= dst.Length0 && t.width <= dst.Length1
    modifies dst
    ensures forall y, x :: 0 <= y < t.height && 0 <= x < t.width ==>
      dst[y, x] == (if Converted(img.colorDepth) then TexelAt(dec, img, t, hasAlpha, filtering, x, y) else old(dst[y, x]))
    ensures forall y, x :: 0 <= y < dst.Length0 && 0 <= x < dst.Length1 && !(y < t.height && x < t.width) ==>
      dst[y, x] == old(dst[y, x])
  {
    var d := img.colorDepth;
    if !Converted(d) {
      return;
    }
    var y := 0;
    while y < t.height
      invariant 0 <= y <= t.height
      invariant forall j, i :: 0 <= j < y && 0 <= i < t.width ==> dst[j, i] == TexelAt(dec, img, t, hasAlpha, filtering, i, j)
      invariant forall j, i :: 0 <= j < dst.Length0 && 0 <= i < dst.Length1 && !(j < y && i < t.width) ==>
        dst[j, i] == old(dst[j, i])
    {
      ConvertRow(dec, img, hasAlpha, t, dst, filtering, y);
      y := y + 1;
    }
  }

  /** One row of BitmapToVideoMem. `lastPixelWasTransparent` says the
      texel just written may still take the colour of the next one. */
  method ConvertRow(dec: ColourDecoder, img: Image, hasAlpha: bool, t: TextureTile, dst: array2<int>, filtering: bool, y: int)
    requires TileInside(img, t) && t.height <= dst.Length0 && t.width <= dst.Length1
    requires Converted(img.colorDepth) && 0 <= y < t.height
    modifies dst
    ensures forall i :: 0 <= i < t.width ==> dst[y, i] == TexelAt(dec, img, t, hasAlpha, filtering, i, y)
    ensures forall j, i :: 0 <= j < dst.Length0 && 0 <= i < dst.Length1 && !(j == y && i < t.width) ==>
      dst[j, i] == old(dst[j, i])
  {
    var d := img.colorDepth;
    var lastPixelWasTransparent := false;
    var x := 0;
    while x < t.width
      invariant 0 <= x <= t.width
      invariant forall i :: 0 <= i < x - 1 ==> dst[y, i] == TexelAt(dec, img, t, hasAlpha, filtering, i, y)
      invariant x > 0 ==> (dst[y, x - 1] ==
        if IsMask(d, Px(img, t, x - 1, y)) then TransparentTexel(dec, img, t, filtering, x - 1, y)
        else TexelAt(dec, img, t, hasAlpha, filtering, x - 1, y))
      invariant !(d == 32 && hasAlpha) ==> lastPixelWasTransparent == (x > 0 && IsMask(d, Px(img, t, x - 1, y)))
      invariant forall j, i :: 0 <= j < dst.Length0 && 0 <= i < dst.Length1 && !(j == y && i < x) ==>
        dst[j, i] == old(dst[j, i])
    {
      var v := Px(img, t, x, y);
      if IsMask(d, v) {
        dst[y, x] := TransparentTexel(dec, img, t, filtering, x, y);
        lastPixelWasTransparent := true;
      } else if d == 32 && hasAlpha {
        dst[y, x] := OpaqueTexel(dec, d, hasAlpha, v);
      } else {
        dst[y, x] := OpaqueTexel(dec, d, hasAlpha, v);
        if lastPixelWasTransparent {
          dst[y, x - 1] := dst[y, x] % ALPHA_UNIT;
          lastPixelWasTransparent := false;
        }
      }
      x := x + 1;
    }
  }

  /** BitmapToVideoMemOpaque: every pixel of the tile becomes its colour
      with full alpha (or its own alpha in a 32-bit bitmap that has one);
      no pixel is treated as transparent. */
  method BitmapToVideoMemOpaque(dec: ColourDecoder, img: Image, hasAlpha: bool, t: TextureTile, dst: array2<int>)
    requires TileInside(img, t) && t.height <= dst.Length0 && t.width <= dst.Length1
    modifies dst
    ensures forall y, x :: 0 <= y < t.height && 0 <= x < t.width ==>
      dst[y, x] == (if Converted(img.colorDepth) then OpaqueTexel(dec, img.colorDepth, hasAlpha, Px(img, t, x, y)) else old(dst[y, x]))
    ensures forall y, x :: 0 <= y < dst.Length0 && 0 <= x < dst.Length1 && !(y < t.height && x < t.width) ==>
      dst[y, x] == old(dst[y, x])
  {
    var d := img.colorDepth;
    var y := 0;
    while y < t.height
      invariant 0 <= y <= t.height
      invariant forall j, i :: 0 <= j < y && 0 <= i < t.width ==>
        dst[j, i] == (if Converted(d) then OpaqueTexel(dec, d, hasAlpha, Px(img, t, i, j)) else old(dst[j, i]))
      invariant forall j, i :: 0 <= j < dst.Length0 && 0 <= i < dst.Length1 && !(j < y && i < t.width) ==>
        dst[j, i] == old(dst[j, i])
    {
      var x := 0;
      while x < t.width
        invariant 0 <= x <= t.width
        invariant forall j, i :: 0 <= j < y && 0 <= i < t.width ==>
          dst[j, i] == (if Converted(d) then OpaqueTexel(dec, d, hasAlpha, Px(img, t, i, j)) else old(dst[j, i]))
        invariant forall i :: 0 <= i < x ==>
          dst[y, i] == (if Converted(d) then OpaqueTexel(dec, d, hasAlpha, Px(img, t, i, y)) else old(dst[y, i]))
        invariant forall j, i :: 0 <= j < dst.Length0 && 0 <= i < dst.Length1 && !(j < y && i < t.width) && !(j == y && i < x) ==>
          dst[j, i] == old(dst[j, i])
      {
        if Converted(d) {
          dst[y, x] := OpaqueTexel(dec, d, hasAlpha, Px(img, t, x, y));
        }
        x := x + 1;
      }
      y := y + 1;
    }
  }
}
