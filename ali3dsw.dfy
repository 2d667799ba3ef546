// The software (SDL renderer) driver's bitmap record and mode list. A
// software DDB draws straight from an engine bitmap, so it has no texture:
// it supports no shared texture ID, ignores resampling, light level and
// tint, and the driver keeps no texture cache.
module SoftwareRenderer {
  import opened CInt
  import opened Wrappers
  import opened AllegroBitmap
  import opened GfxDriverBase

  /** The software driver's driver-dependent bitmap. */
  class ALSoftwareBitmap {
    /** The engine bitmap drawn from; null until one is attached. */
    var bmp: Bitmap?
    var width: int
    var height: int
    var colDepth: int
    var isOpaque: bool
    var hasAlpha: bool
    var flipped: bool
    var stretchToWidth: int
    var stretchToHeight: int
    var alpha: int

    /** A bitmap of the given size with no engine bitmap yet; it renders at
        its own size, fully opaque and not flipped. */
    constructor (w: int, h: int, depth: int, opaqueBitmap: bool)
      ensures bmp == null && width == w && height == h && colDepth == depth && isOpaque == opaqueBitmap
      ensures GetWidthToRender() == w && GetHeightToRender() == h
      ensures GetAlpha() == 255 && !flipped && !hasAlpha
    {
      bmp := null;
      width, height, colDepth := w, h, depth;
      isOpaque := opaqueBitmap;
      hasAlpha := false;
      flipped := false;
      stretchToWidth, stretchToHeight := w, h;
      alpha := 255;
    }

    /** A bitmap wrapping an engine bitmap: size and depth are the engine
        bitmap's, and it renders at that size. */
    constructor Wrap(b: Bitmap, opaqueBitmap: bool, withAlpha: bool)
      requires !b.IsNull()
      ensures bmp == b && width == b.GetWidth() && height == b.GetHeight() && colDepth == b.colorDepth
      ensures isOpaque == opaqueBitmap && hasAlpha == withAlpha
      ensures GetWidthToRender() == b.GetWidth() && GetHeightToRender() == b.GetHeight()
      ensures GetAlpha() == 255 && !flipped
    {
      bmp := b;
      width, height, colDepth := b.GetWidth(), b.GetHeight(), b.colorDepth;
      isOpaque := opaqueBitmap;
      hasAlpha := withAlpha;
      flipped := false;
      stretchToWidth, stretchToHeight := b.GetWidth(), b.GetHeight();
      alpha := 255;
    }

    /** No shared texture data: the ID is always the "none" value. */
    function GetRefID(): (id: int)
      ensures id == UINT32_MAX
    {
      UINT32_MAX
    }

    function GetAlpha(): int
      reads this
    {
      alpha
    }

    function GetWidthToRender(): int
      reads this
    {
      stretchToWidth
    }

    function GetHeightToRender(): int
      reads this
    {
      stretchToHeight
    }

    /** The fields that describe the bitmap itself rather than how it is
        drawn are kept. */
    twostate predicate SameBitmap()
      reads this
    {
      bmp == old(bmp) && width == old(width) && height == old(height) && colDepth == old(colDepth) &&
      isOpaque == old(isOpaque) && hasAlpha == old(hasAlpha)
    }

    method SetAlpha(a: int)
      modifies this
      ensures GetAlpha() == a && SameBitmap()
      ensures flipped == old(flipped) && stretchToWidth == old(stretchToWidth) && stretchToHeight == old(stretchToHeight)
    {
      alpha := a;
    }

    method SetFlippedLeftRight(isFlipped: bool)
      modifies this
      ensures flipped == isFlipped && SameBitmap() && alpha == old(alpha)
      ensures stretchToWidth == old(stretchToWidth) && stretchToHeight == old(stretchToHeight)
    {
      flipped := isFlipped;
    }

    /** SetStretch: the size to render at; resampling is not supported and
        the flag is ignored. */
    method SetStretch(w: int, h: int, useResampler: bool)
      modifies this
      ensures GetWidthToRender() == w && GetHeightToRender() == h
      ensures SameBitmap() && alpha == old(alpha) && flipped == old(flipped)
    {
      stretchToWidth := w;
      stretchToHeight := h;
    }

    /** Lighting is not supported: nothing changes. */
    method SetLightLevel(lightLevel: int)
      ensures unchanged(this)
    {
    }

    /** Tinting is not supported: nothing changes. */
    method SetTint(red: int, green: int, blue: int, tintSaturation: int)
      ensures unchanged(this)
    {
    }
  }

  /** SDLRendererGfxModeList: the display modes the renderer offers. */
  class SDLRendererGfxModeList {
    const modes: seq<DisplayMode>

    constructor (supported: seq<DisplayMode>)
      ensures modes == supported && GetModeCount() == |supported|
    {
      modes := supported;
    }

    function GetModeCount(): (n: nat)
    {
      |modes|
    }

    /** GetMode: the stored mode for an index in range, none otherwise. */
    function GetMode(index: int): (mode: Option<DisplayMode>)
      ensures mode.Some? <==> 0 <= index < GetModeCount()
      ensures mode.Some? ==> mode.value == modes[index]
    {
      if 0 <= index < |modes| then Some(modes[index]) else None
    }
  }

  /** Every stored mode can be found by walking the indices below the
      count, and nothing else can. */
  lemma EveryModeListed(list: SDLRendererGfxModeList, mode: DisplayMode)
    ensures mode in list.modes <==> exists i :: 0 <= i < list.GetModeCount() && list.GetMode(i) == Some(mode)
  {
    if mode in list.modes {
      var i :| 0 <= i < |list.modes| && list.modes[i] == mode;
      assert list.GetMode(i) == Some(mode);
    }
  }

  /** The software driver keeps no texture cache. */
  class SDLRendererGraphicsDriver {
    /** GetSharedDDB: always a fresh bitmap wrapping the sprite's bitmap;
        the sprite ID is not used. */
    method GetSharedDDB(spriteId: int, b: Bitmap, withAlpha: bool, opaqueBitmap: bool) returns (ddb: ALSoftwareBitmap)
      requires !b.IsNull()
      ensures fresh(ddb) && ddb.bmp == b && ddb.hasAlpha == withAlpha && ddb.isOpaque == opaqueBitmap
      ensures ddb.GetRefID() == UINT32_MAX
    {
      ddb := new ALSoftwareBitmap.Wrap(b, opaqueBitmap, withAlpha);
    }

    /** UpdateSharedDDB does nothing. */
    method UpdateSharedDDB(spriteId: int, b: Bitmap?, withAlpha: bool, opaqueBitmap: bool)
      ensures unchanged(this)
    {
    }

    /** ClearSharedDDB does nothing. */
    method ClearSharedDDB(spriteId: int)
      ensures unchanged(this)
    {
    }
  }
}
