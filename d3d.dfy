// The Direct3D 9 graphics driver: the mapping between colour depths and
// Direct3D pixel formats, texture sizes the card accepts and the tiling of
// large bitmaps, the gamma ramp, display mode checks, the per-frame draw
// lists with their sprite batches, and the D3DBitmap record. Direct3D
// itself is not modelled: the adapter's mode list and the device caps are
// parameters, and textures, vertex buffers and matrices are left out.
module Direct3D {
  import opened Wrappers
  import opened CInt
  import opened GfxDriverBase
  import VideoMemTexels

  const UNSUPPORTED_256_COLOURS: string := "Direct3D driver does not support 256-color display mode"
  const UNSUPPORTED_DDB_DEPTH: string := "CreateDDB: bitmap colour depth not supported"
  /** The largest value of a 16-bit gamma ramp entry. */
  const WORD_MAX: int := 65535
  const GAMMA_RAMP_SIZE: int := 256

  /** GlobalFlipType. */
  const FLIP_NONE: int := 0
  const FLIP_HORIZONTAL: int := 1
  const FLIP_VERTICAL: int := 2
  const FLIP_BOTH: int := 3

  // ---------------------------------------------------------------------
  // Pixel formats

  datatype D3DFormat = Unknown | P8 | A1R5G5B5 | X1R5G5B5 | R5G6B5 | R8G8B8 | A8R8G8B8 | X8R8G8B8

  predicate IsKnownDepth(depth: int)
  {
    depth == 8 || depth == 15 || depth == 16 || depth == 24 || depth == 32
  }

  /** color_depth_to_d3d_format: known depths get a format, others none. */
  function ColorDepthToD3DFormat(depth: int, wantAlpha: bool): (f: D3DFormat)
    ensures f == Unknown <==> !IsKnownDepth(depth)
    ensures f != X1R5G5B5
    ensures wantAlpha ==> f == Unknown || f == P8 || f == A1R5G5B5 || f == A8R8G8B8
  {
    if depth == 8 then P8
    else if wantAlpha then
      (if depth == 15 || depth == 16 then A1R5G5B5 else if depth == 24 || depth == 32 then A8R8G8B8 else Unknown)
    else if depth == 15 then A1R5G5B5
    else if depth == 16 then R5G6B5
    else if depth == 24 then R8G8B8
    else if depth == 32 then X8R8G8B8
    else Unknown
  }

  /** d3d_format_to_color_depth; `secondary` tells 15 from 16 and 24 from
      32 where one format serves both. */
  function D3DFormatToColorDepth(f: D3DFormat, secondary: bool): (depth: int)
    ensures depth == 0 <==> f == Unknown
    ensures depth != 0 ==> IsKnownDepth(depth)
  {
    match f
    case P8 => 8
    case A1R5G5B5 => if secondary then 15 else 16
    case X1R5G5B5 => if secondary then 15 else 16
    case R5G6B5 => 16
    case R8G8B8 => if secondary then 24 else 32
    case A8R8G8B8 => 32
    case X8R8G8B8 => 32
    case Unknown => 0
  }

  /** Every known depth survives the trip to a format without alpha and
      back (read as secondary); with alpha, 15 and 24 come back as 16 and
      32 when not read as secondary. */
  lemma FormatRoundTrip(depth: int)
    ensures IsKnownDepth(depth) ==> D3DFormatToColorDepth(ColorDepthToD3DFormat(depth, false), true) == depth
    ensures !IsKnownDepth(depth) ==> D3DFormatToColorDepth(ColorDepthToD3DFormat(depth, false), true) == 0
    ensures IsKnownDepth(depth) ==>
      D3DFormatToColorDepth(ColorDepthToD3DFormat(depth, true), false) == (if depth == 8 then 8 else if depth <= 16 then 16 else 32)
  {
  }

  /** GetCompatibleBitmapFormat: 8 stays, 9..16 become 16, the rest 32. */
  function GetCompatibleBitmapFormat(depth: int): (r: int)
    ensures r == 8 || r == 16 || r == 32
    ensures r == 8 <==> depth == 8
    ensures r == 16 <==> 8 < depth <= 16
  {
    if depth == 8 then 8 else if depth > 8 && depth <= 16 then 16 else 32
  }

  /** The compatible format is compatible with itself, and a depth is
      accepted by CreateDDB exactly when it is 8, 16 or 32. */
  lemma CompatibleFormatIsFixedPoint(depth: int)
    ensures GetCompatibleBitmapFormat(GetCompatibleBitmapFormat(depth)) == GetCompatibleBitmapFormat(depth)
    ensures GetCompatibleBitmapFormat(depth) == depth <==> depth == 8 || depth == 16 || depth == 32
  {
  }

  // ---------------------------------------------------------------------
  // Texture sizes

  /** The texture capabilities the device reports. */
  datatype TextureCaps = TextureCaps(pow2: bool, squareOnly: bool, maxTextureWidth: int, maxTextureHeight: int)

  predicate IsPow2(n: int)
    decreases if n < 0 then 0 else n
  {
    n == 1 || (n > 1 && n % 2 == 0 && IsPow2(n / 2))
  }

  /** The first of p, 2p, 4p, ... that is at least v. */
  function NextPow2From(p: int, v: int): (r: int)
    requires p >= 2
    ensures r >= p && r >= v
    ensures r == p || r / 2 < v
    decreases v - p
  {
    if p >= v then p else NextPow2From(2 * p, v)
  }

  lemma {:induction false} NextPow2IsPow2(p: int, v: int)
    requires p >= 2 && IsPow2(p)
    ensures IsPow2(NextPow2From(p, v))
    decreases v - p
  {
    if p < v {
      assert (2 * p) / 2 == p;
      NextPow2IsPow2(2 * p, v);
    }
  }

  /** The size AdjustSizeToNearestSupportedByCard leaves. */
  function AdjustedSize(caps: TextureCaps, width: int, height: int): (int, int)
  {
    var w := if caps.pow2 then NextPow2From(2, width) else width;
    var h := if caps.pow2 then NextPow2From(2, height) else height;
    if !caps.squareOnly then (w, h) else if w > h then (w, w) else (h, h)
  }

  /** With the power-of-two cap each side becomes the smallest power of
      two that is at least the side and at least 2; with the square-only
      cap both sides become the larger one; with neither nothing changes. */
  lemma AdjustedSizeProperties(caps: TextureCaps, width: int, height: int)
    ensures var (w, h) := AdjustedSize(caps, width, height);
      (caps.pow2 && !caps.squareOnly ==>
        IsPow2(w) && w >= width && w >= 2 && (w == 2 || w / 2 < width) &&
        IsPow2(h) && h >= height && h >= 2 && (h == 2 || h / 2 < height)) &&
      (caps.squareOnly ==> w == h && w >= width && w >= height) &&
      (caps.pow2 && caps.squareOnly ==> IsPow2(w)) &&
      (!caps.pow2 && caps.squareOnly ==> w == (if width > height then width else height)) &&
      (!caps.pow2 && !caps.squareOnly ==> w == width && h == height)
  {
    assert IsPow2(1) && 2 / 2 == 1;
    NextPow2IsPow2(2, width);
    NextPow2IsPow2(2, height);
  }

  /** Whether the doubling search for one side is still open, as a bound
      on the iterations left. */
  function OpenSide(found: bool, v: int, tryThis: int): nat
  {
    if found then 0 else (if v - tryThis > 0 then v - tryThis else 0) + 1
  }

  /** AdjustSizeToNearestSupportedByCard: doubling from 2 until each side
      fits, then squaring if the card demands it. */
  method AdjustSizeToNearestSupportedByCard(caps: TextureCaps, width: int, height: int)
    returns (allocatedWidth: int, allocatedHeight: int)
    ensures (allocatedWidth, allocatedHeight) == AdjustedSize(caps, width, height)
  {
    allocatedWidth, allocatedHeight := width, height;
    if caps.pow2 {
      var foundWidth, foundHeight := false, false;
      var tryThis := 2;
      while !foundWidth || !foundHeight
        invariant tryThis >= 2
        invariant foundWidth ==> allocatedWidth == NextPow2From(2, width)
        invariant !foundWidth ==> allocatedWidth == width && NextPow2From(tryThis, width) == NextPow2From(2, width)
        invariant foundHeight ==> allocatedHeight == NextPow2From(2, height)
        invariant !foundHeight ==> allocatedHeight == height && NextPow2From(tryThis, height) == NextPow2From(2, height)
        decreases OpenSide(foundWidth, width, tryThis) + OpenSide(foundHeight, height, tryThis)
      {
        if tryThis >= allocatedWidth && !foundWidth {
          allocatedWidth := tryThis;
          foundWidth := true;
        }
        if tryThis >= allocatedHeight && !foundHeight {
          allocatedHeight := tryThis;
          foundHeight := true;
        }
        tryThis := tryThis * 2;
      }
    }
    if caps.squareOnly {
      if allocatedWidth > allocatedHeight {
        allocatedHeight := allocatedWidth;
      } else {
        allocatedWidth := allocatedHeight;
      }
    }
  }

  /** How many tiles a side of `allocSize` texels needs, at most `maxSize`
      texels per tile. */
  function TilesAlong(allocSize: int, maxSize: int): (n: int)
    requires maxSize > 0
    ensures n >= 1
  {
    var q := CDiv(allocSize + maxSize - 1, maxSize);
    if q > 1 then q else 1
  }

  /** The start of tile i of n along a side of `size`: all tiles but the
      last are size / n long, and the last takes the remainder too. */
  function TileStart(size: int, n: int, i: int): int
    requires n >= 1
  {
    i * (size / n)
  }

  function TileLength(size: int, n: int, i: int): int
    requires n >= 1
  {
    size / n + (if i == n - 1 then size % n else 0)
  }

  /** The tiles along a side follow each other without gap or overlap and
      end exactly at the side's end. */
  lemma TilesCoverSide(size: nat, n: int)
    requires n >= 1
    ensures TileStart(size, n, 0) == 0
    ensures forall i :: 0 <= i < n - 1 ==> TileStart(size, n, i + 1) == TileStart(size, n, i) + TileLength(size, n, i)
    ensures TileStart(size, n, n - 1) + TileLength(size, n, n - 1) == size
    ensures forall i :: 0 <= i < n ==> TileLength(size, n, i) >= 0
  {
    var q, r := size / n, size % n;
    assert size == q * n + r && q >= 0 && r >= 0;
    MulSucc(n - 1, q);
    assert q * n == n * q;
    forall i | 0 <= i < n - 1
      ensures TileStart(size, n, i + 1) == TileStart(size, n, i) + TileLength(size, n, i)
    {
      MulSucc(i, q);
    }
  }

  lemma MulSucc(i: int, q: int)
    ensures (i + 1) * q == i * q + q
  {
  }

  function TileAt(width: int, height: int, across: int, down: int, x: int, y: int): VideoMemTexels.TextureTile
    requires across >= 1 && down >= 1
  {
    VideoMemTexels.TextureTile(TileStart(width, across, x), TileStart(height, down, y),
                               TileLength(width, across, x), TileLength(height, down, y))
  }

  /** Tile k of the array holds the tile at column k % across, row
      k / across. */
  predicate TileInPlace(tiles: array<VideoMemTexels.TextureTile>, k: int, width: int, height: int, across: int, down: int)
    reads tiles
    requires across >= 1 && down >= 1 && 0 <= k < tiles.Length
  {
    tiles[k] == TileAt(width, height, across, down, k % across, k / across)
  }

  /** The tiling of CreateTextureData: tile (x, y) is stored at
      y * tilesAcross + x. */
  method CreateTextureTiles(caps: TextureCaps, width: int, height: int)
    returns (tiles: array<VideoMemTexels.TextureTile>, tilesAcross: int, tilesDown: int)
    requires width > 0 && height > 0 && caps.maxTextureWidth > 0 && caps.maxTextureHeight > 0
    ensures fresh(tiles)
    ensures var (w, h) := AdjustedSize(caps, width, height);
      tilesAcross == TilesAlong(w, caps.maxTextureWidth) && tilesDown == TilesAlong(h, caps.maxTextureHeight)
    ensures tiles.Length == tilesAcross * tilesDown
    ensures forall k :: 0 <= k < tiles.Length ==> TileInPlace(tiles, k, width, height, tilesAcross, tilesDown)
  {
    var allocatedWidth, allocatedHeight := AdjustSizeToNearestSupportedByCard(caps, width, height);
    tilesAcross := TilesAlong(allocatedWidth, caps.maxTextureWidth);
    tilesDown := TilesAlong(allocatedHeight, caps.maxTextureHeight);
    var numTiles := tilesAcross * tilesDown;
    MulAtLeastOne(tilesAcross, tilesDown);
    tiles := new VideoMemTexels.TextureTile[numTiles];
    var x := 0;
    while x < tilesAcross
      invariant 0 <= x <= tilesAcross
      invariant forall k :: 0 <= k < numTiles && k % tilesAcross < x ==> TileInPlace(tiles, k, width, height, tilesAcross, tilesDown)
    {
      FillColumn(tiles, x, width, height, tilesAcross, tilesDown);
      x := x + 1;
    }
  }

  /** The inner loop of CreateTextureData: every tile of column x. */
  method FillColumn(tiles: array<VideoMemTexels.TextureTile>, x: int, width: int, height: int, across: int, down: int)
    requires across >= 1 && down >= 1 && 0 <= x < across && tiles.Length == across * down
    requires forall k :: 0 <= k < tiles.Length && k % across < x ==> TileInPlace(tiles, k, width, height, across, down)
    modifies tiles
    ensures forall k :: 0 <= k < tiles.Length && k % across < x + 1 ==> TileInPlace(tiles, k, width, height, across, down)
  {
    var y := 0;
    while y < down
      invariant 0 <= y <= down
      invariant forall k :: 0 <= k < tiles.Length && (k % across < x || (k % across == x && k / across < y)) ==>
        TileInPlace(tiles, k, width, height, across, down)
    {
      var index := y * across + x;
      IndexOfTile(x, y, across, down);
      ghost var before := tiles[..];
      forall k | 0 <= k < tiles.Length && (k % across < x || (k % across == x && k / across < y))
        ensures before[k] == TileAt(width, height, across, down, k % across, k / across)
      {
        assert TileInPlace(tiles, k, width, height, across, down);
      }
      tiles[index] := TileAt(width, height, across, down, x, y);
      forall k | 0 <= k < tiles.Length && (k % across < x || (k % across == x && k / across < y + 1))
        ensures TileInPlace(tiles, k, width, height, across, down)
      {
        if k % across == x && k / across == y {
          SameCell(k, x, y, across);
        } else {
          assert tiles[k] == before[k];
        }
      }
      y := y + 1;
    }
    RowsOfIndices(across, down, tiles.Length);
  }

  lemma SameCell(k: int, x: int, y: int, across: int)
    requires across >= 1 && k % across == x && k / across == y
    ensures k == y * across + x
  {
    assert k == (k / across) * across + k % across;
  }

  lemma MulAtLeastOne(a: int, b: int)
    requires a >= 1 && b >= 1
    ensures a * b >= 1
  {
    MulAtLeast(a, b);
  }

  /** y * across + x names tile (x, y) inside the array. */
  lemma IndexOfTile(x: int, y: int, across: int, down: int)
    requires 0 <= x < across && 0 <= y < down
    ensures 0 <= y * across + x < across * down
    ensures (y * across + x) % across == x && (y * across + x) / across == y
  {
    SplitAt(y, x, across);
    MulMonotone(across, down);
    assert (y + 1) * across == y * across + across;
  }

  lemma MulMonotone(m: int, bound: int)
    requires m >= 1
    ensures forall q {:trigger q * m} :: q >= bound ==> q * m >= bound * m
    ensures forall q {:trigger q * m} :: q <= bound ==> q * m <= bound * m
  {
    forall q | q >= bound
      ensures q * m >= bound * m
    {
      if q > bound {
        MulAtLeast(q - bound, m);
        assert (q - bound) * m == q * m - bound * m;
      }
    }
    forall q | q <= bound
      ensures q * m <= bound * m
    {
      if q < bound {
        MulAtLeast(bound - q, m);
        assert (bound - q) * m == bound * m - q * m;
      }
    }
  }

  /** Every index of an across-by-down array lies in one of its rows. */
  lemma RowsOfIndices(across: int, down: int, n: int)
    requires across >= 1 && n == across * down
    ensures forall k :: 0 <= k < n ==> k / across < down
  {
    MulMonotone(across, down);
    forall k | 0 <= k < n
      ensures k / across < down
    {
      assert k == (k / across) * across + k % across;
    }
  }

  // ---------------------------------------------------------------------
  // Gamma

  /** A gamma ramp entry: the default red entry scaled by gamma/100 (C
      integer division), capped at 65535 and stored in a 16-bit WORD. */
  function GammaEntry(defaultValue: int, gamma: int): (r: int)
    ensures 0 <= r <= WORD_MAX
  {
    var v := CDiv(defaultValue * gamma, 100);
    (if v >= WORD_MAX then WORD_MAX else v) % (WORD_MAX + 1)
  }

  /** Gamma 100 leaves every entry as it was; a non-negative gamma scales
      and caps without wrapping. */
  lemma GammaEntryProperties(defaultValue: int, gamma: int)
    requires 0 <= defaultValue <= WORD_MAX
    ensures GammaEntry(defaultValue, 100) == defaultValue
    ensures gamma >= 0 ==> GammaEntry(defaultValue, gamma) ==
                           (if defaultValue * gamma / 100 >= WORD_MAX then WORD_MAX else defaultValue * gamma / 100)
  {
    if gamma >= 0 {
      MulNonNegative(defaultValue, gamma);
    }
  }

  // ---------------------------------------------------------------------
  // Display modes

  /** An adapter mode as EnumAdapterModes reports it. */
  datatype AdapterMode = AdapterMode(width: int, height: int, format: D3DFormat)

  predicate MatchesAt(modes: seq<Option<AdapterMode>>, i: int, mode: DisplayMode)
    requires 0 <= i < |modes|
  {
    modes[i].Some? && modes[i].value.width == mode.width && modes[i].value.height == mode.height
  }

  /** IsModeSupported: a mode with a non-positive size or depth is refused;
      a windowed mode is accepted; a real fullscreen mode is accepted when
      the adapter lists its size for the depth's format before any entry
      it fails to enumerate (None). */
  method IsModeSupported(mode: DisplayMode, realFullscreen: bool, adapterModes: D3DFormat -> seq<Option<AdapterMode>>)
    returns (ok: bool)
    ensures var modes := adapterModes(ColorDepthToD3DFormat(mode.colorDepth, false));
      ok <==> (mode.width > 0 && mode.height > 0 && mode.colorDepth > 0 &&
               (!realFullscreen || exists i :: 0 <= i < |modes| && MatchesAt(modes, i, mode) &&
                                               forall j :: 0 <= j < i ==> modes[j].Some?))
  {
    if mode.width <= 0 || mode.height <= 0 || mode.colorDepth <= 0 {
      return false;
    }
    if !realFullscreen {
      return true;
    }
    var modes := adapterModes(ColorDepthToD3DFormat(mode.colorDepth, false));
    var i := 0;
    while i < |modes|
      invariant 0 <= i <= |modes|
      invariant forall j :: 0 <= j < i ==> modes[j].Some? && !MatchesAt(modes, j, mode)
    {
      if modes[i].None? {
        ghost var failed := i;
        assert forall k :: 0 <= k < |modes| && MatchesAt(modes, k, mode) ==> k > failed;
        return false;
      }
      if modes[i].value.width == mode.width && modes[i].value.height == mode.height {
        assert MatchesAt(modes, i, mode);
        return true;
      }
      i := i + 1;
    }
    return false;
  }

  /** D3DGfxModeList: the adapter's modes for one pixel format. */
  class D3DGfxModeList {
    /** The adapter's entries for the format; None without Direct3D. */
    const direct3d: Option<seq<Option<AdapterMode>>>
    const modeCount: int

    predicate Valid()
    {
      modeCount == (if direct3d.None? then 0 else |direct3d.value|)
    }

    constructor (adapterModes: Option<seq<Option<AdapterMode>>>)
      ensures Valid() && direct3d == adapterModes
      ensures adapterModes.None? ==> GetModeCount() == 0
    {
      direct3d := adapterModes;
      modeCount := if adapterModes.None? then 0 else |adapterModes.value|;
    }

    function GetModeCount(): int
    {
      modeCount
    }

    /** GetMode: the index-th adapter mode, its depth read from its
        format; none out of range, without Direct3D or when the adapter
        fails to enumerate it. */
    function GetMode(index: int): (mode: Option<DisplayMode>)
      requires Valid()
      ensures mode.Some? <==> direct3d.Some? && 0 <= index < GetModeCount() && direct3d.value[index].Some?
      ensures mode.Some? ==> var m := direct3d.value[index].value;
        mode.value == DisplayMode(m.width, m.height, D3DFormatToColorDepth(m.format, false)) &&
        IsKnownDepth(mode.value.colorDepth) == (m.format != Unknown)
    {
      if direct3d.Some? && 0 <= index < modeCount && direct3d.value[index].Some? then
        var m := direct3d.value[index].value;
        Some(DisplayMode(m.width, m.height, D3DFormatToColorDepth(m.format, false)))
      else None
    }
  }

  // ---------------------------------------------------------------------
  // D3DBitmap

  /** The driver-dependent bitmap of the Direct3D driver. */
  class D3DBitmap {
    var width: int
    var height: int
    var colDepth: int
    var isOpaque: bool
    var hasAlpha: bool
    var flipped: bool
    var stretchToWidth: int
    var stretchToHeight: int
    var useResampler: bool
    var red: int
    var green: int
    var blue: int
    var tintSaturation: int
    var lightLevel: int
    var alpha: int
    /** The ID of the shared texture data, once attached. */
    var dataId: Option<int>

    /** A new bitmap is drawn at its own size, fully opaque, untinted, at
        no light level, not flipped and without resampling. */
    constructor (w: int, h: int, depth: int, opaqueBitmap: bool)
      ensures width == w && height == h && colDepth == depth && isOpaque == opaqueBitmap && !hasAlpha
      ensures GetWidthToRender() == w && GetHeightToRender() == h && GetAlpha() == 255
      ensures red == 0 && green == 0 && blue == 0 && tintSaturation == 0 && lightLevel == 0
      ensures !flipped && !useResampler && dataId.None?
    {
      width, height, colDepth, isOpaque := w, h, depth, opaqueBitmap;
      flipped := false;
      hasAlpha := false;
      stretchToWidth, stretchToHeight := w, h;
      useResampler := false;
      red, green, blue := 0, 0, 0;
      tintSaturation := 0;
      lightLevel := 0;
      alpha := 255;
      dataId := None;
    }

    /** GetRefID: the shared texture data's ID. */
    function GetRefID(): (id: int)
      reads this
      requires dataId.Some?
      ensures Some(id) == dataId
    {
      dataId.value
    }

    function GetAlpha(): int
      reads this
    {
      alpha
    }

    function GetWidthToRender(): int
      reads this
    {
      stretchToWidth
    }

    function GetHeightToRender(): int
      reads this
    {
      stretchToHeight
    }

    /** Everything but the alpha stays the same. */
    twostate predicate OnlyAlphaChanged()
      reads this
    {
      width == old(width) && height == old(height) && colDepth == old(colDepth) && isOpaque == old(isOpaque) &&
      hasAlpha == old(hasAlpha) && flipped == old(flipped) && stretchToWidth == old(stretchToWidth) &&
      stretchToHeight == old(stretchToHeight) && useResampler == old(useResampler) && dataId == old(dataId)
    }

    twostate predicate TintUnchanged()
      reads this
    {
      red == old(red) && green == old(green) && blue == old(blue) &&
      tintSaturation == old(tintSaturation) && lightLevel == old(lightLevel)
    }

    method SetAlpha(a: int)
      modifies this
      ensures GetAlpha() == a && OnlyAlphaChanged() && TintUnchanged()
    {
      alpha := a;
    }

    method SetFlippedLeftRight(isFlipped: bool)
      modifies this
      ensures flipped == isFlipped && TintUnchanged() && alpha == old(alpha)
      ensures width == old(width) && height == old(height) && colDepth == old(colDepth) && isOpaque == old(isOpaque)
      ensures hasAlpha == old(hasAlpha) && stretchToWidth == old(stretchToWidth) && stretchToHeight == old(stretchToHeight)
      ensures useResampler == old(useResampler) && dataId == old(dataId)
    {
      flipped := isFlipped;
    }

    /** SetStretch: the size to render at and whether to resample. */
    method SetStretch(w: int, h: int, resample: bool := true)
      modifies this
      ensures GetWidthToRender() == w && GetHeightToRender() == h && useResampler == resample
      ensures width == old(width) && height == old(height) && colDepth == old(colDepth) && isOpaque == old(isOpaque)
      ensures hasAlpha == old(hasAlpha) && flipped == old(flipped) && dataId == old(dataId)
      ensures TintUnchanged() && alpha == old(alpha)
    {
      stretchToWidth := w;
      stretchToHeight := h;
      useResampler := resample;
    }

    method SetLightLevel(level: int)
      modifies this
      ensures lightLevel == level && OnlyAlphaChanged() && alpha == old(alpha)
      ensures red == old(red) && green == old(green) && blue == old(blue) && tintSaturation == old(tintSaturation)
    {
      lightLevel := level;
    }

    method SetTint(r: int, g: int, b: int, saturation: int)
      modifies this
      ensures red == r && green == g && blue == b && tintSaturation == saturation
      ensures lightLevel == old(lightLevel) && OnlyAlphaChanged() && alpha == old(alpha)
    {
      red, green, blue := r, g, b;
      tintSaturation := saturation;
    }
  }

  /** CreateDDB: refused for a depth the driver would convert; otherwise a
      new bitmap of that size and depth, holding texture data of its own
      (which no sprite shares, so it carries the default ID). */
  method CreateDDB(width: int, height: int, depth: int, opaqueBitmap: bool) returns (r: Result<D3DBitmap>)
    ensures r.Ok? <==> depth == 8 || depth == 16 || depth == 32
    ensures r.Err? ==> r.msg == UNSUPPORTED_DDB_DEPTH
    ensures r.Ok? ==> (fresh(r.value) && r.value.width == width && r.value.height == height &&
      r.value.colDepth == depth && r.value.isOpaque == opaqueBitmap && r.value.GetAlpha() == 255 &&
      r.value.dataId == Some(UINT32_MAX))
  {
    CompatibleFormatIsFixedPoint(depth);
    if depth != GetCompatibleBitmapFormat(depth) {
      return Err(UNSUPPORTED_DDB_DEPTH);
    }
    var ddb := new D3DBitmap(width, height, depth, opaqueBitmap);
    ddb.dataId := Some(UINT32_MAX);
    return Ok(ddb);
  }

  // ---------------------------------------------------------------------
  // Sprite batches and draw lists

  /** A batch ready for rendering: its index and its clipping viewport. */
  datatype D3DSpriteBatch = D3DSpriteBatch(id: nat, viewport: Rect)

  const DEFAULT_D3D_BATCH: D3DSpriteBatch := D3DSpriteBatch(0, NO_RECT)

  /** What an entry draws: a sprite's DDB (by handle), or the point where
      a plugin's raw-drawing callback runs. */
  datatype DrawTarget = Sprite(handle: nat) | StageCallback

  datatype DrawEntry = DrawEntry(target: DrawTarget, node: nat, x: int, y: int, skip: bool)

  function RectWidth(r: Rect): int { r.right - r.left + 1 }
  function RectHeight(r: Rect): int { r.bottom - r.top + 1 }

  /** Rect::MoveToX / MoveToY / MoveBy: the rectangle keeps its size. */
  function MoveToX(r: Rect, x: int): (m: Rect)
    ensures m.left == x && RectWidth(m) == RectWidth(r) && m.top == r.top && m.bottom == r.bottom
  {
    Rect(x, r.top, r.right + x - r.left, r.bottom)
  }

  function MoveToY(r: Rect, y: int): (m: Rect)
    ensures m.top == y && RectHeight(m) == RectHeight(r) && m.left == r.left && m.right == r.right
  {
    Rect(r.left, y, r.right, r.bottom + y - r.top)
  }

  function MoveBy(r: Rect, dx: int, dy: int): Rect
  {
    Rect(r.left + dx, r.top + dy, r.right + dx, r.bottom + dy)
  }

  function Clamp(v: int, lo: int, hi: int): int
  {
    if v < lo then lo else if v > hi then hi else v
  }

  /** ClampToRect: every edge of `item` pulled inside `place`. */
  function ClampToRect(place: Rect, item: Rect): (r: Rect)
    ensures !RectIsEmpty(place) ==>
      place.left <= r.left <= place.right && place.left <= r.right <= place.right &&
      place.top <= r.top <= place.bottom && place.top <= r.bottom <= place.bottom
  {
    Rect(Clamp(item.left, place.left, place.right), Clamp(item.top, place.top, place.bottom),
         Clamp(item.right, place.left, place.right), Clamp(item.bottom, place.top, place.bottom))
  }

  /** The viewport mirrored inside a source frame of the given size. */
  function MirrorX(v: Rect, srcWidth: int): Rect
  {
    MoveToX(v, srcWidth - (v.right + 1))
  }

  function MirrorY(v: Rect, srcHeight: int): Rect
  {
    MoveToY(v, srcHeight - (v.bottom + 1))
  }

  /** Mirroring twice inside the same frame gives the viewport back. */
  lemma MirrorTwice(v: Rect, srcWidth: int, srcHeight: int)
    ensures MirrorX(MirrorX(v, srcWidth), srcWidth) == v
    ensures MirrorY(MirrorY(v, srcHeight), srcHeight) == v
    ensures RectWidth(MirrorX(v, srcWidth)) == RectWidth(v) && RectHeight(MirrorY(v, srcHeight)) == RectHeight(v)
  {
  }

  /** The viewport InitSpriteBatch gives a batch: mirrored for a flip
      (vertical mirrors left-right, horizontal top-bottom), moved by the
      batch offset, and clamped into the parent batch's viewport. */
  function BatchViewport(desc: SpriteBatchDesc, srcRect: Rect, parentViewport: Option<Rect>): Rect
  {
    var v0 := desc.viewport;
    var v1 := if desc.flip == FLIP_VERTICAL || desc.flip == FLIP_BOTH then MirrorX(v0, RectWidth(srcRect)) else v0;
    var v2 := if desc.flip == FLIP_HORIZONTAL || desc.flip == FLIP_BOTH then MirrorY(v1, RectHeight(srcRect)) else v1;
    var v3 := MoveBy(v2, desc.offsetX, desc.offsetY);
    if parentViewport.Some? then ClampToRect(parentViewport.value, v3) else v3
  }

  /** A batch never draws outside its parent's (non-empty) viewport. */
  lemma NestedBatchInsideParent(desc: SpriteBatchDesc, srcRect: Rect, parentViewport: Rect)
    requires !RectIsEmpty(parentViewport)
    ensures var v := BatchViewport(desc, srcRect, Some(parentViewport));
      parentViewport.left <= v.left && v.right <= parentViewport.right &&
      parentViewport.top <= v.top && v.bottom <= parentViewport.bottom
  {
  }

  /** The batches ready for rendering follow the descriptions: batch k has
      ID k; right after the lists are cleared no batch is ready yet. */
  predicate BatchesMatch(batches: seq<D3DSpriteBatch>, descs: seq<SpriteBatchDesc>)
  {
    (|batches| == |descs| || (|batches| == 0 && |descs| == 1)) &&
    forall k :: 0 <= k < |batches| ==> batches[k].id == k
  }

  predicate NodesBelow(list: seq<DrawEntry>, n: int)
  {
    forall i :: 0 <= i < |list| ==> list[i].node < n
  }

  /** The entries of list[lo..hi] that are not skipped, by index. */
  function Drawn(list: seq<DrawEntry>, lo: int, hi: int): (r: seq<nat>)
    requires 0 <= lo <= hi <= |list|
    ensures forall k :: 0 <= k < |r| ==> lo <= r[k] < hi && !list[r[k]].skip
    decreases hi - lo
  {
    if lo == hi then []
    else (if list[lo].skip then [] else [lo]) + Drawn(list, lo + 1, hi)
  }

  /** No entry that is not skipped is left out, and the indices ascend. */
  lemma {:induction false} DrawnComplete(list: seq<DrawEntry>, lo: int, hi: int)
    requires 0 <= lo <= hi <= |list|
    ensures forall i :: lo <= i < hi && !list[i].skip ==> i in Drawn(list, lo, hi)
    ensures forall j, k :: 0 <= j < k < |Drawn(list, lo, hi)| ==> Drawn(list, lo, hi)[j] < Drawn(list, lo, hi)[k]
    decreases hi - lo
  {
    if lo < hi {
      DrawnComplete(list, lo + 1, hi);
    }
  }

  lemma {:induction false} DrawnSplits(list: seq<DrawEntry>, lo: int, mid: int, hi: int)
    requires 0 <= lo <= mid <= hi <= |list|
    ensures Drawn(list, lo, hi) == Drawn(list, lo, mid) + Drawn(list, mid, hi)
    decreases mid - lo
  {
    if lo < mid {
      DrawnSplits(list, lo + 1, mid, hi);
    }
  }

  /** One more entry adds itself unless it is skipped. */
  lemma DrawnExtend(list: seq<DrawEntry>, lo: int, hi: int)
    requires 0 <= lo <= hi < |list|
    ensures Drawn(list, lo, hi + 1) == Drawn(list, lo, hi) + (if list[hi].skip then [] else [hi])
  {
    DrawnSplits(list, lo, hi, hi + 1);
    assert Drawn(list, hi + 1, hi + 1) == [];
  }

  /** The Direct3D driver's draw lists, with the base driver's state. */
  class D3DGraphicsDriver {
    const base: GraphicsDriverBase
    const vmem: VideoMemoryDriver
    const caps: TextureCaps
    /** The default gamma ramp's red entries, and the current ramp. */
    const defaultGammaRed: seq<int>
    const currentGammaRed: array<int>
    const currentGammaGreen: array<int>
    const currentGammaBlue: array<int>
    var spriteBatches: seq<D3DSpriteBatch>
    var spriteList: seq<DrawEntry>
    var backupDescs: seq<SpriteBatchDesc>
    var backupBatches: seq<D3DSpriteBatch>
    var backupSpriteList: seq<DrawEntry>

    predicate Valid()
      reads this, base, vmem
    {
      base.Valid() && vmem.Valid() && vmem.base == base &&
      |defaultGammaRed| == GAMMA_RAMP_SIZE && currentGammaRed.Length == GAMMA_RAMP_SIZE &&
      currentGammaGreen.Length == GAMMA_RAMP_SIZE && currentGammaBlue.Length == GAMMA_RAMP_SIZE &&
      BatchesMatch(spriteBatches, base.batches.descs) && NodesBelow(spriteList, |base.batches.descs|) &&
      ((backupDescs == [] && backupBatches == [] && backupSpriteList == []) ||
       (ValidBatches(Batches(backupDescs, 0)) && BatchesMatch(backupBatches, backupDescs) &&
        NodesBelow(backupSpriteList, |backupDescs|)))
    }

    /** A new driver: no mode, no entries, no backups, and the default
        batch 0 already built so that drawing before any BeginSpriteBatch
        has a batch to go to. */
    constructor (deviceCaps: TextureCaps, defaultRamp: seq<int>)
      requires |defaultRamp| == GAMMA_RAMP_SIZE
      ensures Valid() && fresh(base) && fresh(vmem) && caps == deviceCaps && defaultGammaRed == defaultRamp
      ensures spriteBatches == [D3DSpriteBatch(0, BatchViewport(DEFAULT_BATCH, NO_RECT, None))]
      ensures spriteList == [] && backupDescs == [] && backupBatches == [] && backupSpriteList == []
      ensures base.batches == INITIAL_BATCHES && base.mode == NO_MODE
    {
      var b := new GraphicsDriverBase();
      base := b;
      vmem := new VideoMemoryDriver(b);
      caps := deviceCaps;
      defaultGammaRed := defaultRamp;
      currentGammaRed := new int[GAMMA_RAMP_SIZE];
      currentGammaGreen := new int[GAMMA_RAMP_SIZE];
      currentGammaBlue := new int[GAMMA_RAMP_SIZE];
      spriteBatches := [];
      spriteList := [];
      backupDescs := [];
      backupBatches := [];
      backupSpriteList := [];
      new;
      spriteBatches := InitBatchAt(0);
    }

    /** The batch list after InitSpriteBatch(index): grown to hold the
        index (new slots default), and the index's batch built from its
        description. */
    function InitBatchAt(index: nat): (r: seq<D3DSpriteBatch>)
      reads this, base
      requires index < |base.batches.descs|
      requires base.batches.descs[index].parent < |spriteBatches| || base.batches.descs[index].parent == 0
      ensures |r| == if |spriteBatches| <= index then index + 1 else |spriteBatches|
      ensures r[index].id == index
      ensures forall k :: 0 <= k < |r| && k != index ==>
        r[k] == (if k < |spriteBatches| then spriteBatches[k] else DEFAULT_D3D_BATCH)
    {
      var desc := base.batches.descs[index];
      var parent := if desc.parent > 0 then Some(spriteBatches[desc.parent].viewport) else None;
      var grown := if |spriteBatches| <= index
                   then spriteBatches + seq(index + 1 - |spriteBatches|, _ => DEFAULT_D3D_BATCH)
                   else spriteBatches;
      grown[index := D3DSpriteBatch(index, BatchViewport(desc, base.srcRect, parent))]
    }

    /** BeginSpriteBatch with the driver's InitSpriteBatch for the new
        batch. */
    method BeginSpriteBatch(viewport: Rect, offsetX: int, offsetY: int, flip: int)
      requires Valid()
      modifies this, base
      ensures Valid()
      ensures base.batches == BeginBatch(old(base.batches), viewport, offsetX, offsetY, flip)
      ensures |spriteBatches| == |base.batches.descs| && spriteBatches[base.batches.active].id == base.batches.active
      ensures spriteList == old(spriteList) && backupSpriteList == old(backupSpriteList)
      ensures backupDescs == old(backupDescs) && backupBatches == old(backupBatches)
      ensures base.mode == old(base.mode) && base.srcRect == old(base.srcRect) && base.dstRect == old(base.dstRect)
    {
      base.BeginSpriteBatch(viewport, offsetX, offsetY, flip);
      var index := base.batches.active;
      spriteBatches := InitBatchAt(index);
    }

    method EndSpriteBatch()
      requires Valid()
      modifies base
      ensures Valid() && base.batches == EndBatch(old(base.batches))
      ensures base.mode == old(base.mode) && base.srcRect == old(base.srcRect) && base.dstRect == old(base.dstRect)
    {
      base.EndSpriteBatch();
    }

    /** ClearDrawLists with ResetAllBatches: no batch and no entry remain. */
    method ClearDrawLists()
      requires Valid()
      modifies this, base
      ensures Valid() && spriteBatches == [] && spriteList == []
      ensures base.batches == ClearBatches(old(base.batches))
      ensures backupDescs == old(backupDescs) && backupBatches == old(backupBatches) && backupSpriteList == old(backupSpriteList)
      ensures base.mode == old(base.mode) && base.srcRect == old(base.srcRect) && base.dstRect == old(base.dstRect)
      ensures base.srcColorDepth == old(base.srcColorDepth)
    {
      spriteBatches := [];
      spriteList := [];
      base.ClearDrawLists();
    }

    /** DrawSprite: the entry is tagged with the active batch. */
    method DrawSprite(x: int, y: int, target: DrawTarget)
      requires Valid()
      modifies this
      ensures Valid() && spriteList == old(spriteList) + [DrawEntry(target, base.batches.active, x, y, false)]
      ensures spriteBatches == old(spriteBatches) && backupDescs == old(backupDescs)
      ensures backupBatches == old(backupBatches) && backupSpriteList == old(backupSpriteList)
    {
      spriteList := spriteList + [DrawEntry(target, base.batches.active, x, y, false)];
    }

    method BackupDrawLists()
      requires Valid()
      modifies this
      ensures Valid() && backupDescs == base.batches.descs && backupBatches == spriteBatches && backupSpriteList == spriteList
      ensures spriteBatches == old(spriteBatches) && spriteList == old(spriteList)
    {
      backupDescs := base.batches.descs;
      backupBatches := spriteBatches;
      backupSpriteList := spriteList;
    }

    method ClearDrawBackups()
      requires Valid()
      modifies this
      ensures Valid() && backupDescs == [] && backupBatches == [] && backupSpriteList == []
      ensures spriteBatches == old(spriteBatches) && spriteList == old(spriteList)
    {
      backupDescs := [];
      backupBatches := [];
      backupSpriteList := [];
    }

    /** RestoreDrawLists: the backed-up lists come back and batch 0 is
        active. */
    method RestoreDrawLists()
      requires Valid() && backupDescs != []
      modifies this, base
      ensures Valid()
      ensures base.batches == Batches(old(backupDescs), 0)
      ensures spriteBatches == old(backupBatches) && spriteList == old(backupSpriteList)
      ensures backupDescs == old(backupDescs) && backupBatches == old(backupBatches) && backupSpriteList == old(backupSpriteList)
      ensures base.mode == old(base.mode) && base.srcRect == old(base.srcRect) && base.dstRect == old(base.dstRect)
    {
      base.batches := Batches(backupDescs, 0);
      spriteBatches := backupBatches;
      spriteList := backupSpriteList;
    }

    /** DestroyDDBImpl: backed-up entries drawing the destroyed bitmap are
        skipped from now on; nothing else in the backup changes. */
    method DestroyDDBImpl(handle: nat)
      requires Valid()
      modifies this
      ensures Valid() && |backupSpriteList| == |old(backupSpriteList)|
      ensures forall i :: 0 <= i < |backupSpriteList| ==>
        backupSpriteList[i] == (if old(backupSpriteList)[i].target == Sprite(handle)
                                then old(backupSpriteList)[i].(skip := true) else old(backupSpriteList)[i])
      ensures forall i :: 0 <= i < |backupSpriteList| && backupSpriteList[i].target == Sprite(handle) ==> backupSpriteList[i].skip
      ensures spriteBatches == old(spriteBatches) && spriteList == old(spriteList)
      ensures backupDescs == old(backupDescs) && backupBatches == old(backupBatches)
    {
      var i := 0;
      while i < |backupSpriteList|
        invariant 0 <= i <= |backupSpriteList| == |old(backupSpriteList)|
        invariant forall k :: 0 <= k < |backupSpriteList| ==>
          backupSpriteList[k] == (if k < i && old(backupSpriteList)[k].target == Sprite(handle)
                                  then old(backupSpriteList)[k].(skip := true) else old(backupSpriteList)[k])
        invariant spriteBatches == old(spriteBatches) && spriteList == old(spriteList)
        invariant backupDescs == old(backupDescs) && backupBatches == old(backupBatches)
      {
        if backupSpriteList[i].target == Sprite(handle) {
          backupSpriteList := backupSpriteList[i := backupSpriteList[i].(skip := true)];
        }
        i := i + 1;
      }
    }

    /** RenderSpriteBatch: consumes the run of entries from `from` that
        belong to the batch, drawing those not skipped; returns the index
        just past the run. */
    method RenderSpriteBatch(batch: D3DSpriteBatch, from: nat) returns (next: nat, drawn: seq<nat>)
      requires from <= |spriteList|
      ensures from <= next <= |spriteList|
      ensures forall i :: from <= i < next ==> spriteList[i].node == batch.id
      ensures next == |spriteList| || spriteList[next].node != batch.id
      ensures drawn == Drawn(spriteList, from, next)
    {
      var list := spriteList;
      next := from;
      drawn := [];
      while next < |list| && list[next].node == batch.id
        invariant from <= next <= |list|
        invariant forall i :: from <= i < next ==> list[i].node == batch.id
        invariant drawn == Drawn(list, from, next)
      {
        DrawnExtend(list, from, next);
        if !list[next].skip {
          drawn := drawn + [next];
        }
        next := next + 1;
      }
    }

    /** RenderSpriteBatches: every open batch is ended, then the entries
        are drawn batch run by batch run; each entry not skipped is drawn
        exactly once, in list order. */
    method RenderSpriteBatches() returns (drawn: seq<nat>)
      requires Valid() && (spriteList == [] || |spriteBatches| == |base.batches.descs|)
      modifies base
      ensures Valid() && base.batches.active == 0 && base.batches.descs == old(base.batches.descs)
      ensures drawn == Drawn(spriteList, 0, |spriteList|)
      ensures base.mode == old(base.mode) && base.srcRect == old(base.srcRect) && base.dstRect == old(base.dstRect)
    {
      while base.batches.active > 0
        invariant Valid() && base.batches.descs == old(base.batches.descs)
        invariant base.mode == old(base.mode) && base.srcRect == old(base.srcRect) && base.dstRect == old(base.dstRect)
        decreases base.batches.active
      {
        base.EndSpriteBatch();
      }
      drawn := [];
      var cur := 0;
      while cur < |spriteList|
        invariant 0 <= cur <= |spriteList|
        invariant drawn == Drawn(spriteList, 0, cur)
        invariant Valid() && base.batches.active == 0 && base.batches.descs == old(base.batches.descs)
        invariant base.mode == old(base.mode) && base.srcRect == old(base.srcRect) && base.dstRect == old(base.dstRect)
        decreases |spriteList| - cur
      {
        var batch := spriteBatches[spriteList[cur].node];
        var next, run := RenderSpriteBatch(batch, cur);
        DrawnSplits(spriteList, 0, cur, next);
        drawn := drawn + run;
        cur := next;
      }
    }

    /** SetNativeResolution: the base driver's OnSetNativeRes with the
        active batch rebuilt; succeeds when the native size is not empty. */
    method SetNativeResolution(width: int, height: int, colorDepth: int) returns (ok: bool)
      requires Valid()
      modifies this, base
      ensures Valid() && ok == (width > 0 && height > 0)
      ensures base.srcRect == RectWH(0, 0, width, height) && base.srcColorDepth == colorDepth
      ensures base.batches == old(base.batches).(descs := old(base.batches.descs)[0 := old(base.batches.descs)[0].(viewport := RectWH(0, 0, width, height))])
      ensures |spriteBatches| == if |old(spriteBatches)| <= base.batches.active then base.batches.active + 1 else |old(spriteBatches)|
      ensures spriteBatches[base.batches.active].id == base.batches.active
      ensures forall k :: 0 <= k < |spriteBatches| && k != base.batches.active ==>
        spriteBatches[k] == (if k < |old(spriteBatches)| then old(spriteBatches)[k] else DEFAULT_D3D_BATCH)
      ensures spriteList == old(spriteList) && base.mode == old(base.mode) && base.dstRect == old(base.dstRect)
      ensures backupDescs == old(backupDescs) && backupBatches == old(backupBatches) && backupSpriteList == old(backupSpriteList)
    {
      base.OnSetNativeRes(width, height, colorDepth);
      spriteBatches := InitBatchAt(base.batches.active);
      ok := !RectIsEmpty(base.srcRect);
    }

    /** SetRenderFrame: succeeds when the destination is not empty. */
    method SetRenderFrame(dst: Rect) returns (ok: bool)
      requires Valid()
      modifies base
      ensures Valid() && base.dstRect == dst && ok == !RectIsEmpty(dst)
      ensures base.mode == old(base.mode) && base.srcRect == old(base.srcRect) && base.batches == old(base.batches)
    {
      base.OnSetRenderFrame(dst);
      ok := !RectIsEmpty(base.dstRect);
    }

    /** What releasing a mode leaves, apart from the mode itself: no render
        frame, no draw lists or backups, the batch descriptions cleared, the
        effect pool emptied and every stage screen slot freed. */
    predicate Released(oldBatches: Batches, screenCount: int)
      reads this, base, vmem
    {
      base.dstRect == NO_RECT && spriteBatches == [] && spriteList == [] &&
      backupDescs == [] && backupBatches == [] && backupSpriteList == [] &&
      ValidBatches(oldBatches) && base.batches == ClearBatches(oldBatches) &&
      vmem.fxPool == [] && vmem.fxIndex == 0 && vmem.stageScreen == NO_STAGE &&
      |vmem.stageScreens| == screenCount && forall k :: 0 <= k < |vmem.stageScreens| ==> vmem.stageScreens[k] == NO_STAGE
    }

    /** ReleaseDisplayMode: with a mode set, the mode is forgotten and the
        draw lists, backups, effect pool and stage screens are cleared. */
    method ReleaseDisplayMode()
      requires Valid()
      modifies this, base, vmem
      ensures Valid()
      ensures !old(base.IsModeSet()) ==> unchanged(this, base, vmem)
      ensures old(base.IsModeSet()) ==> base.mode == NO_MODE && Released(old(base.batches), old(|vmem.stageScreens|))
      ensures vmem.stageScreenDirty == old(vmem.stageScreenDirty)
      ensures base.srcRect == old(base.srcRect) && base.srcColorDepth == old(base.srcColorDepth)
      ensures old(base.IsModeSet()) ==>
        vmem.book == ReleaseAll(ReleaseAll(old(vmem.book), FxDdbs(old(vmem.fxPool))), ScreenDdbs(old(vmem.stageScreens)))
    {
      if !base.IsModeSet() {
        return;
      }
      base.OnModeReleased();
      ClearDrawLists();
      ClearDrawBackups();
      vmem.DestroyFxPool();
      vmem.DestroyAllStageScreens();
    }

    /** SetDisplayMode: the current mode is released first; a palette
        (below 15-bit) mode is refused, as is one the device cannot be
        initialised for (`initError`); otherwise the mode is set. */
    method SetDisplayMode(mode: DisplayMode, initError: Option<string>) returns (ok: bool, error: Option<string>)
      requires Valid()
      modifies this, base, vmem
      ensures Valid()
      ensures ok <==> mode.colorDepth >= 15 && initError.None?
      ensures mode.colorDepth < 15 ==> error == Some(UNSUPPORTED_256_COLOURS)
      ensures mode.colorDepth >= 15 ==> error == initError
      ensures ok ==> base.mode == mode
      ensures !ok ==> !base.IsModeSet()
      ensures old(base.IsModeSet()) ==> Released(old(base.batches), old(|vmem.stageScreens|))
      ensures old(base.IsModeSet()) ==>
        vmem.book == ReleaseAll(ReleaseAll(old(vmem.book), FxDdbs(old(vmem.fxPool))), ScreenDdbs(old(vmem.stageScreens)))
      ensures !old(base.IsModeSet()) ==>
        spriteBatches == old(spriteBatches) && spriteList == old(spriteList) && base.batches == old(base.batches) &&
        backupDescs == old(backupDescs) && backupBatches == old(backupBatches) && backupSpriteList == old(backupSpriteList) &&
        base.dstRect == old(base.dstRect) && unchanged(vmem)
      ensures base.srcRect == old(base.srcRect) && base.srcColorDepth == old(base.srcColorDepth)
    {
      ReleaseDisplayMode();
      if mode.colorDepth < 15 {
        return false, Some(UNSUPPORTED_256_COLOURS);
      }
      if initError.Some? {
        return false, initError;
      }
      base.OnModeSet(mode);
      return true, None;
    }

    /** SetGamma: every entry of the red, green and blue ramps is the
        default red entry scaled by gamma / 100 and capped at 65535. */
    method SetGamma(newGamma: int)
      requires Valid()
      modifies currentGammaRed, currentGammaGreen, currentGammaBlue
      ensures forall i :: 0 <= i < GAMMA_RAMP_SIZE ==>
        currentGammaRed[i] == GammaEntry(defaultGammaRed[i], newGamma) &&
        currentGammaGreen[i] == GammaEntry(defaultGammaRed[i], newGamma) &&
        currentGammaBlue[i] == GammaEntry(defaultGammaRed[i], newGamma)
    {
      for i := 0 to GAMMA_RAMP_SIZE
        invariant forall k :: 0 <= k < i ==>
          currentGammaRed[k] == GammaEntry(defaultGammaRed[k], newGamma) &&
          currentGammaGreen[k] == GammaEntry(defaultGammaRed[k], newGamma) &&
          currentGammaBlue[k] == GammaEntry(defaultGammaRed[k], newGamma)
      {
        var newValue := CDiv(defaultGammaRed[i] * newGamma, 100);
        if newValue >= WORD_MAX {
          newValue := WORD_MAX;
        }
        currentGammaRed[i] := newValue % (WORD_MAX + 1);
        currentGammaGreen[i] := newValue % (WORD_MAX + 1);
        currentGammaBlue[i] := newValue % (WORD_MAX + 1);
      }
    }
  }
}
