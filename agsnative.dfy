// The editor's native pixel and mask routines: sprite resolution flags,
// cropping a set of sprites to the union of their visible edges, mask
// validation, walkable-area extents, transparency rewriting on import and
// the alpha-channel fixups. Bitmaps are AllegroBitmap.Bitmap values whose
// pixels are indexed [row, column].
module AgsNative {
  import opened AllegroBitmap
  import opened CInt

  const SPF_HIRES: bv32 := 0x01
  const SPF_VAR_RESOLUTION: bv32 := 0x20

  const MAX_WALK_AREAS: int := 15
  const MASK_COLOR_32: int := 0xFF00FF

  /** Sprite import transparency methods. */
  const SIMP_INDEX0: int := 0
  const SIMP_TOPLEFT: int := 1
  const SIMP_BOTLEFT: int := 2
  const SIMP_TOPRIGHT: int := 3
  const SIMP_BOTRIGHT: int := 4
  const SIMP_LEAVEALONE: int := 5
  const SIMP_NONE: int := 6

  // ---------------------------------------------------------------------
  // update_sprite_resolution

  /** The flag bits update_sprite_resolution leaves alone. */
  const OTHER_FLAGS: bv32 := 0xFFFF_FFDE

  /** The new Flags of a sprite: HIRES and VAR_RESOLUTION cleared, then
      VAR_RESOLUTION set for a variable-resolution sprite and HIRES set too
      when it is also high-resolution. */
  function UpdateSpriteResolution(flags: bv32, isVarRes: bool, isHighRes: bool): (r: bv32)
    ensures (r & SPF_VAR_RESOLUTION != 0) <==> isVarRes
    ensures (r & SPF_HIRES != 0) <==> isVarRes && isHighRes
  {
    var cleared := flags & OTHER_FLAGS;
    if !isVarRes then cleared
    else if isHighRes then cleared | SPF_VAR_RESOLUTION | SPF_HIRES
    else cleared | SPF_VAR_RESOLUTION
  }

  lemma KeepsOtherFlagsVarHigh(flags: bv32)
    ensures UpdateSpriteResolution(flags, true, true) & OTHER_FLAGS == flags & OTHER_FLAGS
  {
    var c := flags & OTHER_FLAGS;
    assert (c | SPF_VAR_RESOLUTION | SPF_HIRES) & OTHER_FLAGS == c & OTHER_FLAGS;
  }

  lemma KeepsOtherFlagsVar(flags: bv32)
    ensures UpdateSpriteResolution(flags, true, false) & OTHER_FLAGS == flags & OTHER_FLAGS
  {
    var c := flags & OTHER_FLAGS;
    assert (c | SPF_VAR_RESOLUTION) & OTHER_FLAGS == c & OTHER_FLAGS;
  }

  /** Every flag bit other than HIRES and VAR_RESOLUTION is untouched. */
  lemma UpdateSpriteResolutionKeepsOtherFlags(flags: bv32, isVarRes: bool, isHighRes: bool)
    ensures UpdateSpriteResolution(flags, isVarRes, isHighRes) & OTHER_FLAGS == flags & OTHER_FLAGS
  {
    if isVarRes && isHighRes {
      KeepsOtherFlagsVarHigh(flags);
    } else if isVarRes {
      KeepsOtherFlagsVar(flags);
    }
  }

  /** The update reads only the other flag bits of its input. */
  lemma UpdateReadsOnlyOtherFlags(f: bv32, g: bv32, isVarRes: bool, isHighRes: bool)
    requires f & OTHER_FLAGS == g & OTHER_FLAGS
    ensures UpdateSpriteResolution(f, isVarRes, isHighRes) == UpdateSpriteResolution(g, isVarRes, isHighRes)
  {
  }

  /** Only the last update counts. */
  lemma UpdateSpriteResolutionOverrides(flags: bv32, v1: bool, h1: bool, v2: bool, h2: bool)
    ensures UpdateSpriteResolution(UpdateSpriteResolution(flags, v1, h1), v2, h2) == UpdateSpriteResolution(flags, v2, h2)
  {
    UpdateSpriteResolutionKeepsOtherFlags(flags, v1, h1);
    UpdateReadsOnlyOtherFlags(UpdateSpriteResolution(flags, v1, h1), flags, v2, h2);
  }

  // ---------------------------------------------------------------------
  // Pixels

  /** GetPixel: the pixel at column x, row y, or -1 outside the bitmap. */
  function GetPixel(b: Bitmap, x: int, y: int): (p: int)
    requires !b.IsNull()
    reads b.data
    ensures 0 <= x < b.data.Length1 && 0 <= y < b.data.Length0 ==> p == b.data[y, x]
    ensures !(0 <= x < b.data.Length1 && 0 <= y < b.data.Length0) ==> p == -1
  {
    if 0 <= x < b.data.Length1 && 0 <= y < b.data.Length0 then b.data[y, x] else -1
  }

  /** Rewrites every pixel p to f(p), and reports whether any pixel
      satisfied `hit` before the rewrite. */
  method MapPixels(data: array2<int>, f: int -> int, hit: int -> bool) returns (found: bool)
    modifies data
    ensures forall r, c :: 0 <= r < data.Length0 && 0 <= c < data.Length1 ==> data[r, c] == f(old(data[r, c]))
    ensures found <==> exists r, c :: 0 <= r < data.Length0 && 0 <= c < data.Length1 && hit(old(data[r, c]))
  {
    found := false;
    var r := 0;
    while r < data.Length0
      invariant 0 <= r <= data.Length0
      invariant forall r', c :: 0 <= r' < r && 0 <= c < data.Length1 ==> data[r', c] == f(old(data[r', c]))
      invariant forall r', c :: r <= r' < data.Length0 && 0 <= c < data.Length1 ==> data[r', c] == old(data[r', c])
      invariant found <==> exists r', c :: 0 <= r' < r && 0 <= c < data.Length1 && hit(old(data[r', c]))
    {
      var c := 0;
      while c < data.Length1
        invariant 0 <= c <= data.Length1
        invariant forall r', c' :: 0 <= r' < r && 0 <= c' < data.Length1 ==> data[r', c'] == f(old(data[r', c']))
        invariant forall c' :: 0 <= c' < c ==> data[r, c'] == f(old(data[r, c']))
        invariant forall r', c' :: r <= r' < data.Length0 && 0 <= c' < data.Length1 && (r' > r || c' >= c) ==>
          data[r', c'] == old(data[r', c'])
        invariant found <==> (exists r', c' :: 0 <= r' < r && 0 <= c' < data.Length1 && hit(old(data[r', c']))) ||
                             (exists c' :: 0 <= c' < c && hit(old(data[r, c'])))
      {
        if hit(data[r, c]) {
          found := true;
        }
        data[r, c] := f(data[r, c]);
        c := c + 1;
      }
      r := r + 1;
    }
  }

  // ---------------------------------------------------------------------
  // validate_mask

  /** The pixel rule of validate_mask: colours at or above maxColour become 0. */
  function ClearInvalid(maxColour: int): int -> int
  {
    p => if p >= maxColour then 0 else p
  }

  /** validate_mask: a missing or non-8-bit mask is refused (ok is false and
      nothing changes); otherwise every pixel >= maxColour is set to 0, and
      the room is marked modified iff such a pixel existed. */
  method ValidateMask(b: Bitmap?, maxColour: int, roomModified: bool) returns (ok: bool, modified: bool)
    requires b != null ==> !b.IsNull()
    modifies if b != null then {b.data} else {}
    ensures ok <==> b != null && b.colorDepth == 8
    ensures !ok ==> modified == roomModified
    ensures ok ==> forall r, c :: 0 <= r < b.data.Length0 && 0 <= c < b.data.Length1 ==>
      b.data[r, c] == if old(b.data[r, c]) >= maxColour then 0 else old(b.data[r, c])
    ensures ok ==> (modified <==> (roomModified ||
      exists r, c :: 0 <= r < b.data.Length0 && 0 <= c < b.data.Length1 && old(b.data[r, c]) >= maxColour))
  {
    if b == null || b.colorDepth != 8 {
      return false, roomModified;
    }
    var errFound := MapPixels(b.data, ClearInvalid(maxColour), p => p >= maxColour);
    ok := true;
    modified := roomModified || errFound;
  }

  // ---------------------------------------------------------------------
  // calculate_walkable_areas

  /** The pixel at (x, y) has been visited by the column-major scan that
      stands at column ww, row qq. */
  predicate Visited(x: int, y: int, ww: int, qq: int)
  {
    x < ww || (x == ww && y < qq)
  }

  /** Row y of the mask holds a pixel of value a. */
  predicate RowHolds(data: array2<int>, a: int, y: int)
    reads data
  {
    0 <= y < data.Length0 && exists x :: 0 <= x < data.Length1 && data[y, x] == a
  }

  /** Top is at most roomHeight and is either roomHeight or a row holding
      the area; Bottom is at least 0 and is either 0 or a row holding it. */
  predicate ExtentsWitnessed(data: array2<int>, roomHeight: int, tops: seq<int>, bottoms: seq<int>)
    reads data
    requires |tops| == |bottoms| == MAX_WALK_AREAS + 1
  {
    forall a :: 0 <= a <= MAX_WALK_AREAS ==>
      tops[a] <= roomHeight && bottoms[a] >= 0 &&
      (tops[a] == roomHeight || RowHolds(data, a, tops[a])) &&
      (bottoms[a] == 0 || RowHolds(data, a, bottoms[a]))
  }

  /** The inner loop of calculate_walkable_areas: column ww, top to bottom,
      lowering each area's top and raising its bottom to the rows it
      appears on. */
  method ScanColumn(data: array2<int>, roomHeight: int, ww: int, tops0: seq<int>, bottoms0: seq<int>)
    returns (tops: seq<int>, bottoms: seq<int>)
    requires 0 <= ww < data.Length1
    requires forall r, c :: 0 <= r < data.Length0 && 0 <= c < data.Length1 ==> data[r, c] >= 0
    requires |tops0| == |bottoms0| == MAX_WALK_AREAS + 1
    requires forall y, x :: 0 <= y < data.Length0 && 0 <= x < ww && data[y, x] <= MAX_WALK_AREAS ==>
      tops0[data[y, x]] <= y <= bottoms0[data[y, x]]
    requires ExtentsWitnessed(data, roomHeight, tops0, bottoms0)
    ensures |tops| == |bottoms| == MAX_WALK_AREAS + 1
    ensures forall y, x :: 0 <= y < data.Length0 && 0 <= x < ww + 1 && data[y, x] <= MAX_WALK_AREAS ==>
      tops[data[y, x]] <= y <= bottoms[data[y, x]]
    ensures ExtentsWitnessed(data, roomHeight, tops, bottoms)
  {
    tops, bottoms := tops0, bottoms0;
    var qq := 0;
    while qq < data.Length0
      invariant 0 <= qq <= data.Length0
      invariant |tops| == |bottoms| == MAX_WALK_AREAS + 1
      invariant forall y, x ::
        0 <= y < data.Length0 && 0 <= x < data.Length1 && Visited(x, y, ww, qq) && data[y, x] <= MAX_WALK_AREAS ==>
        tops[data[y, x]] <= y <= bottoms[data[y, x]]
      invariant ExtentsWitnessed(data, roomHeight, tops, bottoms)
    {
      var thispix := data[qq, ww];
      if thispix <= MAX_WALK_AREAS {
        assert RowHolds(data, thispix, qq);
        if tops[thispix] > qq {
          tops := tops[thispix := qq];
        }
        if bottoms[thispix] < qq {
          bottoms := bottoms[thispix := qq];
        }
      }
      qq := qq + 1;
    }
    assert forall y, x :: 0 <= y < data.Length0 && 0 <= x < ww + 1 ==> Visited(x, y, ww, data.Length0);
  }

  /** calculate_walkable_areas: for every area 0..MAX_WALK_AREAS, Top is the
      smallest row holding it (or roomHeight when that is smaller or the area
      is unused) and Bottom the largest such row (or 0). Pixel values above
      MAX_WALK_AREAS are ignored. */
  method CalculateWalkableAreas(mask: Bitmap, roomHeight: int) returns (tops: seq<int>, bottoms: seq<int>)
    requires !mask.IsNull()
    requires forall r, c :: 0 <= r < mask.data.Length0 && 0 <= c < mask.data.Length1 ==> mask.data[r, c] >= 0
    ensures |tops| == |bottoms| == MAX_WALK_AREAS + 1
    ensures forall y, x :: 0 <= y < mask.data.Length0 && 0 <= x < mask.data.Length1 && mask.data[y, x] <= MAX_WALK_AREAS ==>
      tops[mask.data[y, x]] <= y <= bottoms[mask.data[y, x]]
    ensures ExtentsWitnessed(mask.data, roomHeight, tops, bottoms)
  {
    tops := seq(MAX_WALK_AREAS + 1, _ => roomHeight);
    bottoms := seq(MAX_WALK_AREAS + 1, _ => 0);
    var data := mask.data;
    var ww := 0;
    while ww < data.Length1
      invariant 0 <= ww <= data.Length1
      invariant |tops| == |bottoms| == MAX_WALK_AREAS + 1
      invariant forall y, x :: 0 <= y < data.Length0 && 0 <= x < ww && data[y, x] <= MAX_WALK_AREAS ==>
        tops[data[y, x]] <= y <= bottoms[data[y, x]]
      invariant ExtentsWitnessed(data, roomHeight, tops, bottoms)
    {
      tops, bottoms := ScanColumn(data, roomHeight, ww, tops, bottoms);
      ww := ww + 1;
    }
  }

  // ---------------------------------------------------------------------
  // sort_out_transparency

  /** The colour of the pixel SIMP_TOPLEFT .. SIMP_BOTRIGHT take as
      transparent, or the mask colour for the other methods. */
  function TransparentColour(b: Bitmap, method_: int): (c: int)
    requires !b.IsNull()
    reads b.data
  {
    var w, h := b.GetWidth(), b.GetHeight();
    if method_ == SIMP_TOPLEFT then GetPixel(b, 0, 0)
    else if method_ == SIMP_BOTLEFT then GetPixel(b, 0, h - 1)
    else if method_ == SIMP_TOPRIGHT then GetPixel(b, w - 1, 0)
    else if method_ == SIMP_BOTRIGHT then GetPixel(b, w - 1, h - 1)
    else b.maskColor
  }

  /** SIMP_NONE: transparent-coloured pixels take a close opaque colour. */
  function RemoveTransparency(transcol: int): int -> int
  {
    var changeTo := if transcol == 0 then 16 else transcol - 1;
    p => if p == transcol then changeTo else p
  }

  /** The other methods: the chosen colour becomes the mask colour and pixels
      already of the mask colour take the replacement colour. */
  function SwapTransparency(transcol: int, maskColour: int, replaceWith: int): int -> int
  {
    p => if p == transcol then maskColour else if p == maskColour then replaceWith else p
  }

  /** The colour that replaces mask-coloured pixels: 16 for 8-bit images,
      palette entry 0 for an 8-bit import into a deeper image, 0 otherwise.
      `paletteZero` is makecol_depth of palette entry 0, computed outside. */
  function ReplacementColour(depth: int, importedColourDepth: int, paletteZero: int): int
  {
    if depth <= 8 then 16 else if importedColourDepth == 8 then paletteZero else 0
  }

  /** sort_out_transparency: returns transcol and rewrites the pixels. */
  method SortOutTransparency(b: Bitmap, spriteImportMethod: int, importedColourDepth: int, paletteZero: int)
    returns (transcol: int)
    requires !b.IsNull()
    modifies b.data
    ensures spriteImportMethod == SIMP_LEAVEALONE ==> (transcol == 0 &&
      forall r, c :: 0 <= r < b.data.Length0 && 0 <= c < b.data.Length1 ==> b.data[r, c] == old(b.data[r, c]))
    ensures spriteImportMethod != SIMP_LEAVEALONE ==> transcol == old(TransparentColour(b, spriteImportMethod))
    ensures spriteImportMethod == SIMP_NONE ==>
      forall r, c :: 0 <= r < b.data.Length0 && 0 <= c < b.data.Length1 ==>
        b.data[r, c] == if old(b.data[r, c]) == transcol then (if transcol == 0 then 16 else transcol - 1) else old(b.data[r, c])
    ensures spriteImportMethod != SIMP_LEAVEALONE && spriteImportMethod != SIMP_NONE ==>
      forall r, c :: 0 <= r < b.data.Length0 && 0 <= c < b.data.Length1 ==>
        b.data[r, c] == SwapTransparency(transcol, b.maskColor,
                          ReplacementColour(b.colorDepth, importedColourDepth, paletteZero))(old(b.data[r, c]))
  {
    if spriteImportMethod == SIMP_LEAVEALONE {
      return 0;
    }
    transcol := TransparentColour(b, spriteImportMethod);
    var found: bool;
    if spriteImportMethod == SIMP_NONE {
      found := MapPixels(b.data, RemoveTransparency(transcol), p => false);
    } else {
      var replaceWithCol := ReplacementColour(b.colorDepth, importedColourDepth, paletteZero);
      found := MapPixels(b.data, SwapTransparency(transcol, b.maskColor, replaceWithCol), p => false);
    }
  }

  /** With SIMP_NONE no pixel keeps the transparent colour. */
  lemma RemoveTransparencyLeavesNoTransparent(transcol: int, p: int)
    ensures RemoveTransparency(transcol)(p) != transcol
  {
  }

  /** Swapping moves every transparent-coloured pixel onto the mask colour and
      keeps mask-coloured pixels opaque when the replacement is not the mask. */
  lemma SwapTransparencyMasksExactly(transcol: int, maskColour: int, replaceWith: int, p: int)
    requires replaceWith != maskColour
    ensures SwapTransparency(transcol, maskColour, replaceWith)(p) == maskColour <==> p == transcol
  {
  }

  // ---------------------------------------------------------------------
  // Alpha channel

  /** The alpha byte of a 32-bit ARGB pixel. */
  function Alpha(p: int): int
  {
    (p / 0x100_0000) % 256
  }

  /** set_rgb_mask_from_alpha_channel's pixel rule. */
  function MaskFromAlpha(p: int): int
  {
    if Alpha(p) == 0 then MASK_COLOR_32 else p
  }

  /** set_opaque_alpha_channel's pixel rule: p | 0xFF000000 for non-mask
      pixels, written arithmetically for 32-bit p. */
  function OpaqueAlpha(p: int): int
  {
    if p == MASK_COLOR_32 then p else p % 0x100_0000 + 0xFF00_0000
  }

  /** A 32-bit pixel has alpha 0 exactly when p & 0xFF000000 is 0, that is
      when it is below 0x1000000. */
  lemma AlphaZeroIffBelow(p: int)
    requires 0 <= p < 0x1_0000_0000
    ensures Alpha(p) == 0 <==> p < 0x100_0000
  {
    assert 0 <= p / 0x100_0000 < 256;
  }

  method SetRgbMaskFromAlphaChannel(image: Bitmap)
    requires !image.IsNull()
    modifies image.data
    ensures forall r, c :: 0 <= r < image.data.Length0 && 0 <= c < image.data.Length1 ==>
      image.data[r, c] == if Alpha(old(image.data[r, c])) == 0 then MASK_COLOR_32 else old(image.data[r, c])
  {
    var found := MapPixels(image.data, MaskFromAlpha, p => false);
  }

  method SetOpaqueAlphaChannel(image: Bitmap)
    requires !image.IsNull()
    modifies image.data
    ensures forall r, c :: 0 <= r < image.data.Length0 && 0 <= c < image.data.Length1 ==>
      image.data[r, c] == OpaqueAlpha(old(image.data[r, c]))
  {
    var found := MapPixels(image.data, OpaqueAlpha, p => false);
  }

  /** After the opaque pass every pixel is either the mask colour or fully opaque. */
  lemma OpaqueAlphaIsOpaque(p: int)
    requires 0 <= p
    ensures OpaqueAlpha(p) == MASK_COLOR_32 || Alpha(OpaqueAlpha(p)) == 255
  {
  }

  /** The two passes agree: a pixel the mask pass turned into the mask colour
      is left alone by the opaque pass. */
  lemma MaskThenOpaque(p: int)
    requires 0 <= p < 0x1_0000_0000
    ensures Alpha(p) == 0 ==> OpaqueAlpha(MaskFromAlpha(p)) == MASK_COLOR_32
    ensures Alpha(p) != 0 && p != MASK_COLOR_32 ==> OpaqueAlpha(MaskFromAlpha(p)) == p % 0x100_0000 + 0xFF00_0000
  {
  }

  // ---------------------------------------------------------------------
  // crop_sprite_edges
  //
  // A "line" is a column (vertical) or a row (not vertical); a line has ink
  // when one of its pixels differs from the sprite's mask colour.

  /** Number of lines in the given direction. */
  function Lines(b: Bitmap, vertical: bool): nat
    requires !b.IsNull()
  {
    if vertical then b.data.Length1 else b.data.Length0
  }

  /** Pixel j of line i. */
  function LinePixel(b: Bitmap, vertical: bool, i: int, j: int): int
    requires !b.IsNull()
    requires 0 <= i < Lines(b, vertical) && 0 <= j < Lines(b, !vertical)
    reads b.data
  {
    if vertical then b.data[j, i] else b.data[i, j]
  }

  predicate LineInk(b: Bitmap, vertical: bool, i: int)
    requires !b.IsNull()
    requires 0 <= i < Lines(b, vertical)
    reads b.data
  {
    exists j :: 0 <= j < Lines(b, !vertical) && LinePixel(b, vertical, i, j) != b.maskColor
  }

  /** The first line at or after i with ink, or the line count when none. */
  ghost function FirstInk(b: Bitmap, vertical: bool, i: int): int
    requires !b.IsNull()
    requires 0 <= i <= Lines(b, vertical)
    reads b.data
    decreases Lines(b, vertical) - i
  {
    if i == Lines(b, vertical) then i
    else if LineInk(b, vertical, i) then i
    else FirstInk(b, vertical, i + 1)
  }

  /** The last line at or before i with ink, or -1 when none. */
  ghost function LastInk(b: Bitmap, vertical: bool, i: int): int
    requires !b.IsNull()
    requires -1 <= i < Lines(b, vertical)
    reads b.data
    decreases i + 1
  {
    if i < 0 then -1
    else if LineInk(b, vertical, i) then i
    else LastInk(b, vertical, i - 1)
  }

  lemma {:induction false} FirstInkIsFirst(b: Bitmap, vertical: bool, i: int)
    requires !b.IsNull()
    requires 0 <= i <= Lines(b, vertical)
    ensures i <= FirstInk(b, vertical, i) <= Lines(b, vertical)
    ensures forall k :: i <= k < FirstInk(b, vertical, i) ==> !LineInk(b, vertical, k)
    ensures FirstInk(b, vertical, i) < Lines(b, vertical) ==> LineInk(b, vertical, FirstInk(b, vertical, i))
    decreases Lines(b, vertical) - i
  {
    if i < Lines(b, vertical) && !LineInk(b, vertical, i) {
      FirstInkIsFirst(b, vertical, i + 1);
    }
  }

  lemma {:induction false} LastInkIsLast(b: Bitmap, vertical: bool, i: int)
    requires !b.IsNull()
    requires -1 <= i < Lines(b, vertical)
    ensures -1 <= LastInk(b, vertical, i) <= i
    ensures forall k :: LastInk(b, vertical, i) < k <= i ==> !LineInk(b, vertical, k)
    ensures LastInk(b, vertical, i) >= 0 ==> LineInk(b, vertical, LastInk(b, vertical, i))
    decreases i + 1
  {
    if i >= 0 && !LineInk(b, vertical, i) {
      LastInkIsLast(b, vertical, i - 1);
    }
  }

  /** The sprites crop_sprite_edges is given: at least one, all present and
      of the same non-empty size. */
  predicate SameSizeSprites(sprites: seq<Bitmap>)
  {
    |sprites| >= 1 && !sprites[0].IsNull() &&
    forall k :: 0 <= k < |sprites| ==>
      !sprites[k].IsNull() &&
      sprites[k].data.Length0 == sprites[0].data.Length0 && sprites[k].data.Length1 == sprites[0].data.Length1 &&
      sprites[0].data.Length0 >= 1 && sprites[0].data.Length1 >= 1
  }

  /** The low edge (left or top) over the first n sprites: the smallest
      first-ink line, starting from the line count. */
  ghost function LowEdge(sprites: seq<Bitmap>, vertical: bool, n: int): int
    requires SameSizeSprites(sprites) && 0 <= n <= |sprites|
    reads set k | 0 <= k < |sprites| :: sprites[k].data
  {
    if n == 0 then Lines(sprites[0], vertical)
    else
      var e := LowEdge(sprites, vertical, n - 1);
      var f := FirstInk(sprites[n - 1], vertical, 0);
      if f < e then f else e
  }

  /** The high edge (right or bottom) over the first n sprites: the largest
      last-ink line, starting from 0. */
  ghost function HighEdge(sprites: seq<Bitmap>, vertical: bool, n: int): int
    requires SameSizeSprites(sprites) && 0 <= n <= |sprites|
    reads set k | 0 <= k < |sprites| :: sprites[k].data
  {
    if n == 0 then 0
    else
      var e := HighEdge(sprites, vertical, n - 1);
      var l := LastInk(sprites[n - 1], vertical, Lines(sprites[n - 1], vertical) - 1);
      if l > e then l else e
  }

  /** No sprite has ink before the low edge, and some sprite has ink on it
      unless it is the line count. */
  lemma {:induction false} LowEdgeIsUnionEdge(sprites: seq<Bitmap>, vertical: bool, n: int)
    requires SameSizeSprites(sprites) && 0 <= n <= |sprites|
    ensures 0 <= LowEdge(sprites, vertical, n) <= Lines(sprites[0], vertical)
    ensures forall k, i :: 0 <= k < n && 0 <= i < LowEdge(sprites, vertical, n) ==> !LineInk(sprites[k], vertical, i)
    ensures LowEdge(sprites, vertical, n) < Lines(sprites[0], vertical) ==>
      exists k :: 0 <= k < n && LineInk(sprites[k], vertical, LowEdge(sprites, vertical, n))
  {
    if n > 0 {
      LowEdgeIsUnionEdge(sprites, vertical, n - 1);
      FirstInkIsFirst(sprites[n - 1], vertical, 0);
    }
  }

  /** No sprite has ink after the high edge, and some sprite has ink on it
      unless it is 0. */
  lemma {:induction false} HighEdgeIsUnionEdge(sprites: seq<Bitmap>, vertical: bool, n: int)
    requires SameSizeSprites(sprites) && 0 <= n <= |sprites|
    ensures 0 <= HighEdge(sprites, vertical, n) < Lines(sprites[0], vertical)
    ensures forall k, i :: 0 <= k < n && HighEdge(sprites, vertical, n) < i < Lines(sprites[0], vertical) ==>
      !LineInk(sprites[k], vertical, i)
    ensures HighEdge(sprites, vertical, n) > 0 ==>
      exists k :: 0 <= k < n && LineInk(sprites[k], vertical, HighEdge(sprites, vertical, n))
  {
    if n > 0 {
      HighEdgeIsUnionEdge(sprites, vertical, n - 1);
      LastInkIsLast(sprites[n - 1], vertical, Lines(sprites[n - 1], vertical) - 1);
    }
  }

  /** Scans line i for a pixel that is not the mask colour. */
  method LineHasInk(b: Bitmap, vertical: bool, i: int) returns (ink: bool)
    requires !b.IsNull()
    requires 0 <= i < Lines(b, vertical)
    ensures ink == LineInk(b, vertical, i)
  {
    var j := 0;
    while j < Lines(b, !vertical)
      invariant 0 <= j <= Lines(b, !vertical)
      invariant forall j' :: 0 <= j' < j ==> LinePixel(b, vertical, i, j') == b.maskColor
    {
      if LinePixel(b, vertical, i, j) != b.maskColor {
        return true;
      }
      j := j + 1;
    }
    return false;
  }

  /** Scans lines upwards from 0 and stops at the first with ink. */
  method FirstInkLine(b: Bitmap, vertical: bool) returns (i: int)
    requires !b.IsNull()
    ensures i == FirstInk(b, vertical, 0)
  {
    i := 0;
    while i < Lines(b, vertical)
      invariant 0 <= i <= Lines(b, vertical)
      invariant FirstInk(b, vertical, i) == FirstInk(b, vertical, 0)
      decreases Lines(b, vertical) - i
    {
      var ink := LineHasInk(b, vertical, i);
      if ink {
        return;
      }
      i := i + 1;
    }
  }

  /** Scans lines downwards from the last and stops at the first with ink. */
  method LastInkLine(b: Bitmap, vertical: bool) returns (i: int)
    requires !b.IsNull()
    ensures i == LastInk(b, vertical, Lines(b, vertical) - 1)
  {
    i := Lines(b, vertical) - 1;
    while i >= 0
      invariant -1 <= i < Lines(b, vertical)
      invariant LastInk(b, vertical, i) == LastInk(b, vertical, Lines(b, vertical) - 1)
      decreases i + 1
    {
      var ink := LineHasInk(b, vertical, i);
      if ink {
        return;
      }
      i := i - 1;
    }
  }

  /** The first and last lines with ink of one sprite, across and down. */
  method SpriteInkLines(b: Bitmap) returns (xl: int, xr: int, yt: int, yb: int)
    requires !b.IsNull()
    ensures xl == FirstInk(b, true, 0) && xr == LastInk(b, true, Lines(b, true) - 1)
    ensures yt == FirstInk(b, false, 0) && yb == LastInk(b, false, Lines(b, false) - 1)
  {
    xl := FirstInkLine(b, true);
    xr := LastInkLine(b, true);
    yt := FirstInkLine(b, false);
    yb := LastInkLine(b, false);
  }

  /** The four scans of crop_sprite_edges over every sprite. */
  method FindInkBox(sprites: seq<Bitmap>) returns (left: int, right: int, top: int, bottom: int)
    requires SameSizeSprites(sprites)
    ensures left == LowEdge(sprites, true, |sprites|) && right == HighEdge(sprites, true, |sprites|)
    ensures top == LowEdge(sprites, false, |sprites|) && bottom == HighEdge(sprites, false, |sprites|)
  {
    left, right := sprites[0].GetWidth(), 0;
    top, bottom := sprites[0].GetHeight(), 0;
    var aa := 0;
    while aa < |sprites|
      invariant 0 <= aa <= |sprites|
      invariant left == LowEdge(sprites, true, aa) && right == HighEdge(sprites, true, aa)
      invariant top == LowEdge(sprites, false, aa) && bottom == HighEdge(sprites, false, aa)
    {
      var xl, xr, yt, yb := SpriteInkLines(sprites[aa]);
      if xl < left {
        left := xl;
      }
      if xr > right {
        right := xr;
      }
      if yt < top {
        top := yt;
      }
      if yb > bottom {
        bottom := yb;
      }
      aa := aa + 1;
    }
  }

  /** The symmetric adjustment: the left and right margins are made equal by
      widening the narrower side. */
  function SymmetricEdges(left: int, right: int, width: int): (r: (int, int))
    ensures r.0 == width - r.1 - 1
    ensures r.0 <= left && r.1 >= right
    ensures 0 <= left && right < width ==> 0 <= r.0 && r.1 < width
  {
    var rightDist := (width - right) - 1;
    var l := if rightDist < left then rightDist else left;
    var r := if l < rightDist then (width - l) - 1 else right;
    (l, r)
  }

  /** The crop box (left, top, newWidth, newHeight) of a set of sprites. */
  ghost function CropBox(sprites: seq<Bitmap>, symmetric: bool): (int, int, int, int)
    requires SameSizeSprites(sprites)
    reads set k | 0 <= k < |sprites| :: sprites[k].data
  {
    var n := |sprites|;
    var width := sprites[0].data.Length1;
    var left0, right0 := LowEdge(sprites, true, n), HighEdge(sprites, true, n);
    var top, bottom := LowEdge(sprites, false, n), HighEdge(sprites, false, n);
    var lr := if symmetric then SymmetricEdges(left0, right0, width) else (left0, right0);
    (lr.0, top, (lr.1 - lr.0) + 1, (bottom - top) + 1)
  }

  /** crop_sprite_edges crops when the box is at least 1x1 and differs from
      the full size. */
  ghost predicate CropApplies(sprites: seq<Bitmap>, symmetric: bool)
    requires SameSizeSprites(sprites)
    reads set k | 0 <= k < |sprites| :: sprites[k].data
  {
    var box := CropBox(sprites, symmetric);
    !(box.2 == sprites[0].data.Length1 && box.3 == sprites[0].data.Length0) && box.2 >= 1 && box.3 >= 1
  }

  /** When the crop applies, the box lies inside the sprites. */
  lemma CropBoxInside(sprites: seq<Bitmap>, symmetric: bool)
    requires SameSizeSprites(sprites)
    requires CropBox(sprites, symmetric).2 >= 1 && CropBox(sprites, symmetric).3 >= 1
    ensures var box := CropBox(sprites, symmetric);
      0 <= box.0 && box.0 + box.2 <= sprites[0].data.Length1 &&
      0 <= box.1 && box.1 + box.3 <= sprites[0].data.Length0
  {
    LowEdgeIsUnionEdge(sprites, true, |sprites|);
    HighEdgeIsUnionEdge(sprites, true, |sprites|);
    LowEdgeIsUnionEdge(sprites, false, |sprites|);
    HighEdgeIsUnionEdge(sprites, false, |sprites|);
  }

  /** Every non-mask pixel of every sprite lies inside the crop box, so the
      crop removes only mask-coloured borders. */
  lemma InkInsideCropBox(sprites: seq<Bitmap>, symmetric: bool, k: int, y: int, x: int)
    requires SameSizeSprites(sprites)
    requires 0 <= k < |sprites| && 0 <= y < sprites[0].data.Length0 && 0 <= x < sprites[0].data.Length1
    requires sprites[k].data[y, x] != sprites[k].maskColor
    ensures var box := CropBox(sprites, symmetric);
      box.0 <= x < box.0 + box.2 && box.1 <= y < box.1 + box.3
  {
    var b := sprites[k];
    assert LinePixel(b, true, x, y) != b.maskColor;
    assert LineInk(b, true, x);
    assert LinePixel(b, false, y, x) != b.maskColor;
    assert LineInk(b, false, y);
    LowEdgeIsUnionEdge(sprites, true, |sprites|);
    HighEdgeIsUnionEdge(sprites, true, |sprites|);
    LowEdgeIsUnionEdge(sprites, false, |sprites|);
    HighEdgeIsUnionEdge(sprites, false, |sprites|);
  }

  /** A new bitmap holding the w x h region of src whose top-left corner is
      (left, top): CreateBitmap followed by Blit. */
  method CopyRegion(src: Bitmap, left: int, top: int, w: nat, h: nat) returns (dst: Bitmap)
    requires !src.IsNull()
    requires 0 <= left && left + w <= src.data.Length1 && 0 <= top && top + h <= src.data.Length0
    ensures !dst.IsNull() && dst.data.Length1 == w && dst.data.Length0 == h
    ensures dst.colorDepth == src.colorDepth && dst.maskColor == src.maskColor
    ensures forall r, c :: 0 <= r < h && 0 <= c < w ==> dst.data[r, c] == src.data[top + r, left + c]
    ensures fresh(dst.data)
  {
    dst := new Bitmap(w, h, src.colorDepth, src.maskColor);
    var r := 0;
    while r < h
      invariant 0 <= r <= h
      invariant forall r', c :: 0 <= r' < r && 0 <= c < w ==> dst.data[r', c] == src.data[top + r', left + c]
    {
      var c := 0;
      while c < w
        invariant 0 <= c <= w
        invariant forall r', c' :: 0 <= r' < r && 0 <= c' < w ==> dst.data[r', c'] == src.data[top + r', left + c']
        invariant forall c' :: 0 <= c' < c ==> dst.data[r, c'] == src.data[top + r, left + c']
      {
        dst.data[r, c] := src.data[top + r, left + c];
        c := c + 1;
      }
      r := r + 1;
    }
  }

  /** dst is the w x h region of src at (left, top), at src's colour depth. */
  predicate RegionOf(dst: Bitmap, src: Bitmap, left: int, top: int, w: int, h: int)
    requires !src.IsNull()
    requires 0 <= left && left + w <= src.data.Length1 && 0 <= top && top + h <= src.data.Length0
    reads dst.data, src.data
  {
    !dst.IsNull() && dst.data.Length1 == w && dst.data.Length0 == h && dst.colorDepth == src.colorDepth &&
    forall r, c :: 0 <= r < h && 0 <= c < w ==> dst.data[r, c] == src.data[top + r, left + c]
  }

  /** The copying loop of crop_sprite_edges: a cropped copy of each sprite. */
  method CropEach(sprites: seq<Bitmap>, left: int, top: int, w: nat, h: nat) returns (cropped: seq<Bitmap>)
    requires SameSizeSprites(sprites)
    requires 0 <= left && left + w <= sprites[0].data.Length1 && 0 <= top && top + h <= sprites[0].data.Length0
    ensures |cropped| == |sprites|
    ensures forall k :: 0 <= k < |sprites| ==> RegionOf(cropped[k], sprites[k], left, top, w, h)
  {
    cropped := [];
    var aa := 0;
    while aa < |sprites|
      invariant 0 <= aa <= |sprites| && |cropped| == aa
      invariant forall k :: 0 <= k < aa ==> RegionOf(cropped[k], sprites[k], left, top, w, h)
    {
      var newsprit := CopyRegion(sprites[aa], left, top, w, h);
      cropped := cropped + [newsprit];
      aa := aa + 1;
    }
  }

  /** crop_sprite_edges: returns 1 and the cropped copies of every sprite
      when the crop applies, else 0 and the sprites unchanged. */
  method CropSpriteEdges(sprites: seq<Bitmap>, symmetric: bool) returns (result: int, cropped: seq<Bitmap>)
    requires SameSizeSprites(sprites)
    ensures result == 0 || result == 1
    ensures result == 1 <==> CropApplies(sprites, symmetric)
    ensures result == 0 ==> cropped == sprites
    ensures result == 1 ==> (|cropped| == |sprites| &&
      var box := CropBox(sprites, symmetric);
      0 <= box.0 && box.0 + box.2 <= sprites[0].data.Length1 && 0 <= box.1 && box.1 + box.3 <= sprites[0].data.Length0 &&
      forall k :: 0 <= k < |sprites| ==> RegionOf(cropped[k], sprites[k], box.0, box.1, box.2, box.3))
  {
    var width, height := sprites[0].GetWidth(), sprites[0].GetHeight();
    var left, right, top, bottom := FindInkBox(sprites);
    if symmetric {
      var lr := SymmetricEdges(left, right, width);
      left, right := lr.0, lr.1;
    }
    var newWidth := (right - left) + 1;
    var newHeight := (bottom - top) + 1;
    assert (left, top, newWidth, newHeight) == CropBox(sprites, symmetric);
    if newWidth == width && newHeight == height {
      return 0, sprites;
    }
    if newWidth < 1 || newHeight < 1 {
      return 0, sprites;
    }
    CropBoxInside(sprites, symmetric);
    ghost var applies := CropApplies(sprites, symmetric);
    cropped := CropEach(sprites, left, top, newWidth, newHeight);
    assert CropBox(sprites, symmetric) == (left, top, newWidth, newHeight);
    assert CropApplies(sprites, symmetric) == applies;
    result := 1;
  }

  // ---------------------------------------------------------------------
  // Coordinate contexts

  /** How many game units a legacy high-resolution game has per low-resolution unit. */
  const HIRES_COORD_MULTIPLIER: int := 2

  /** ctx_data_to_game_size: a size stored in a high- or low-resolution
      context, expressed in the game's own units. */
  function CtxDataToGameSize(val: int, hiresCtx: bool, gameIsLegacyHiRes: bool): (r: int)
    ensures hiresCtx == gameIsLegacyHiRes ==> r == val
    ensures hiresCtx && !gameIsLegacyHiRes ==> r >= 1
    ensures hiresCtx && !gameIsLegacyHiRes && val < HIRES_COORD_MULTIPLIER ==> r == 1
    ensures hiresCtx && !gameIsLegacyHiRes && val >= HIRES_COORD_MULTIPLIER ==>
      r * HIRES_COORD_MULTIPLIER <= val < (r + 1) * HIRES_COORD_MULTIPLIER
    ensures !hiresCtx && gameIsLegacyHiRes ==> r == val * HIRES_COORD_MULTIPLIER
  {
    if hiresCtx && !gameIsLegacyHiRes then Max(1, CDiv(val, HIRES_COORD_MULTIPLIER))
    else if !hiresCtx && gameIsLegacyHiRes then val * HIRES_COORD_MULTIPLIER
    else val
  }

  function Max(a: int, b: int): int { if a >= b then a else b }

  /** A positive low-resolution size scaled up for a high-resolution game,
      then read back as a high-resolution size by a low-resolution game, is
      the size it started as; a high-resolution size of one unit rounds up
      to one low-resolution unit instead of vanishing. */
  lemma CtxSizeRoundTrip(val: int)
    requires val >= 1
    ensures CtxDataToGameSize(CtxDataToGameSize(val, false, true), true, false) == val
    ensures CtxDataToGameSize(1, true, false) == 1
  {
  }
}
