// The bookkeeping shared by the engine's graphics drivers: display mode and
// render frame, the stack of sprite batch descriptions, the cache of
// textures shared between sprite DDBs (driver-dependent bitmaps), the stage
// screens handed to plugins and the pool of screen-effect bitmaps.
// Texture memory is not modelled: a texture is a number, and the weak
// references of the cache are modelled by counting the DDBs that hold each
// texture (a texture has expired when no DDB holds it any more).
module GfxDriverBase {
  import opened Wrappers
  import opened CInt

  /** Width and height of a screen-effect bitmap. */
  const FX_BITMAP_SIZE: int := 16
  /** The colour a fresh screen-effect entry records, matching no colour. */
  const FX_NO_COLOUR: int := -1
  const NULL_SPRITE_ERROR: string := "Unhandled attempt to draw null sprite"

  /** An inclusive rectangle: empty when right < left or bottom < top. */
  datatype Rect = Rect(left: int, top: int, right: int, bottom: int)

  predicate RectIsEmpty(r: Rect)
  {
    r.right < r.left || r.bottom < r.top
  }

  /** The rectangle of the given width and height at (x, y). */
  function RectWH(x: int, y: int, w: int, h: int): (r: Rect)
    ensures RectIsEmpty(r) <==> w <= 0 || h <= 0
  {
    Rect(x, y, x + w - 1, y + h - 1)
  }

  /** The default rectangle: at the origin, with no area. */
  const NO_RECT: Rect := Rect(0, 0, -1, -1)

  datatype Size = Size(width: int, height: int)

  predicate SizeIsNull(s: Size)
  {
    s.width <= 0 || s.height <= 0
  }

  /** The display mode's size and colour depth; all zero when no mode is set. */
  datatype DisplayMode = DisplayMode(width: int, height: int, colorDepth: int)

  const NO_MODE: DisplayMode := DisplayMode(0, 0, 0)

  // ---------------------------------------------------------------------
  // Sprite batches

  /** One batch description; `parent` is the batch that was active when
      this one began, and becomes active again when it ends. */
  datatype SpriteBatchDesc = SpriteBatchDesc(parent: nat, viewport: Rect, offsetX: int, offsetY: int, flip: int)

  const DEFAULT_BATCH: SpriteBatchDesc := SpriteBatchDesc(0, NO_RECT, 0, 0, 0)

  /** _spriteBatchDesc with _actSpriteBatch. */
  datatype Batches = Batches(descs: seq<SpriteBatchDesc>, active: nat)

  /** There is always a default batch 0; the active batch exists; every
      other batch's parent was created before it. */
  predicate ValidBatches(b: Batches)
  {
    |b.descs| >= 1 && b.active < |b.descs| && b.descs[0].parent == 0 &&
    forall k :: 0 < k < |b.descs| ==> b.descs[k].parent < k
  }

  const INITIAL_BATCHES: Batches := Batches([DEFAULT_BATCH], 0)

  /** BeginSpriteBatch: push a description whose parent is the active batch
      and make it the active one. */
  function BeginBatch(b: Batches, viewport: Rect, offsetX: int, offsetY: int, flip: int): (r: Batches)
    ensures |r.descs| == |b.descs| + 1 && r.descs[..|b.descs|] == b.descs
    ensures r.active == |b.descs| && r.descs[r.active].parent == b.active
    ensures ValidBatches(b) ==> ValidBatches(r)
  {
    Batches(b.descs + [SpriteBatchDesc(b.active, viewport, offsetX, offsetY, flip)], |b.descs|)
  }

  /** EndSpriteBatch: the active batch's parent becomes active again. */
  function EndBatch(b: Batches): (r: Batches)
    requires ValidBatches(b)
    ensures ValidBatches(r) && r.descs == b.descs
    ensures b.active > 0 ==> r.active < b.active
    ensures b.active == 0 ==> r.active == 0
  {
    b.(active := b.descs[b.active].parent)
  }

  /** ClearDrawLists: only the default batch remains, and it is active. */
  function ClearBatches(b: Batches): (r: Batches)
    requires ValidBatches(b)
    ensures ValidBatches(r) && r.active == 0 && r.descs == [b.descs[0]]
  {
    Batches(b.descs[..1], 0)
  }

  /** Ending a batch right after beginning it makes the previous batch
      active again; the ended description stays in the list until cleared. */
  lemma EndUndoesBegin(b: Batches, viewport: Rect, offsetX: int, offsetY: int, flip: int)
    requires ValidBatches(b)
    ensures EndBatch(BeginBatch(b, viewport, offsetX, offsetY, flip)).active == b.active
    ensures EndBatch(BeginBatch(b, viewport, offsetX, offsetY, flip)).descs[..|b.descs|] == b.descs
  {
  }

  /** Ending batches repeatedly always reaches the default batch: after
      `active` calls of EndBatch batch 0 is active. */
  function EndMany(b: Batches, n: nat): (r: Batches)
    requires ValidBatches(b)
    ensures ValidBatches(r) && r.descs == b.descs
    decreases n
  {
    if n == 0 then b else EndMany(EndBatch(b), n - 1)
  }

  lemma {:induction false} EndingReachesDefault(b: Batches, n: nat)
    requires ValidBatches(b) && n >= b.active
    ensures EndMany(b, n).active == 0
    decreases n
  {
    if n > 0 {
      EndingReachesDefault(EndBatch(b), n - 1);
    }
  }

  /** GraphicsDriverBase: mode, frame rectangles and the batch stack. */
  class GraphicsDriverBase {
    var mode: DisplayMode
    var srcRect: Rect
    var dstRect: Rect
    var srcColorDepth: int
    var batches: Batches

    predicate Valid()
      reads this
    {
      ValidBatches(batches)
    }

    /** A new driver has only the default batch, and it is active. */
    constructor ()
      ensures Valid() && batches == INITIAL_BATCHES
      ensures mode == NO_MODE && srcRect == NO_RECT && dstRect == NO_RECT && srcColorDepth == 0
    {
      mode := NO_MODE;
      srcRect := NO_RECT;
      dstRect := NO_RECT;
      srcColorDepth := 0;
      batches := INITIAL_BATCHES;
    }

    predicate IsModeSet()
      reads this
    {
      mode.width != 0 && mode.height != 0 && mode.colorDepth != 0
    }

    predicate IsNativeSizeValid()
      reads this
    {
      !RectIsEmpty(srcRect)
    }

    predicate IsRenderFrameValid()
      reads this
    {
      !RectIsEmpty(srcRect) && !RectIsEmpty(dstRect)
    }

    method BeginSpriteBatch(viewport: Rect, offsetX: int, offsetY: int, flip: int)
      requires Valid()
      modifies this
      ensures Valid() && batches == BeginBatch(old(batches), viewport, offsetX, offsetY, flip)
      ensures mode == old(mode) && srcRect == old(srcRect) && dstRect == old(dstRect) && srcColorDepth == old(srcColorDepth)
    {
      batches := Batches(batches.descs + [SpriteBatchDesc(batches.active, viewport, offsetX, offsetY, flip)], |batches.descs|);
    }

    method EndSpriteBatch()
      requires Valid()
      modifies this
      ensures Valid() && batches == EndBatch(old(batches))
      ensures mode == old(mode) && srcRect == old(srcRect) && dstRect == old(dstRect) && srcColorDepth == old(srcColorDepth)
    {
      batches := batches.(active := batches.descs[batches.active].parent);
    }

    method ClearDrawLists()
      requires Valid()
      modifies this
      ensures Valid() && batches == ClearBatches(old(batches))
      ensures mode == old(mode) && srcRect == old(srcRect) && dstRect == old(dstRect) && srcColorDepth == old(srcColorDepth)
    {
      batches := Batches(batches.descs[..1], 0);
    }

    /** OnModeSet: a mode with non-zero size and depth counts as set. */
    method OnModeSet(newMode: DisplayMode)
      modifies this
      ensures mode == newMode
      ensures IsModeSet() <==> newMode.width != 0 && newMode.height != 0 && newMode.colorDepth != 0
      ensures srcRect == old(srcRect) && dstRect == old(dstRect) && batches == old(batches) && srcColorDepth == old(srcColorDepth)
    {
      mode := newMode;
    }

    /** OnModeReleased: no mode and no render frame remain. */
    method OnModeReleased()
      modifies this
      ensures mode == NO_MODE && dstRect == NO_RECT && !IsModeSet() && !IsRenderFrameValid()
      ensures srcRect == old(srcRect) && batches == old(batches) && srcColorDepth == old(srcColorDepth)
    {
      mode := NO_MODE;
      dstRect := NO_RECT;
    }

    /** OnSetNativeRes: the source rectangle and the default batch's
        viewport take the native size. */
    method OnSetNativeRes(width: int, height: int, colorDepth: int)
      requires Valid()
      modifies this
      ensures Valid()
      ensures srcRect == RectWH(0, 0, width, height) && srcColorDepth == colorDepth
      ensures IsNativeSizeValid() <==> width > 0 && height > 0
      ensures batches == old(batches).(descs := old(batches).descs[0 := old(batches).descs[0].(viewport := RectWH(0, 0, width, height))])
      ensures mode == old(mode) && dstRect == old(dstRect)
    {
      srcRect := RectWH(0, 0, width, height);
      srcColorDepth := colorDepth;
      batches := batches.(descs := batches.descs[0 := batches.descs[0].(viewport := RectWH(0, 0, width, height))]);
    }

    method OnSetRenderFrame(dst: Rect)
      modifies this
      ensures dstRect == dst
      ensures IsRenderFrameValid() <==> !RectIsEmpty(srcRect) && !RectIsEmpty(dst)
      ensures mode == old(mode) && srcRect == old(srcRect) && batches == old(batches) && srcColorDepth == old(srcColorDepth)
    {
      dstRect := dst;
    }
  }

  // ---------------------------------------------------------------------
  // Shared textures

  /** A driver-dependent bitmap: the sprite id it was made for (its RefID),
      the texture it holds and the size it was created with. */
  datatype Ddb = Ddb(refId: int, texture: nat, width: int, height: int, colorDepth: int, isOpaque: bool)

  /** An entry of _txRefs: the texture and the resolution it was made at. */
  datatype TextureCacheItem = TextureCacheItem(texture: nat, width: int, height: int, colorDepth: int)

  /** _txRefs together with the number of DDBs holding each texture, and the
      number of the next texture to be created. */
  datatype TextureBook = TextureBook(txRefs: map<int, TextureCacheItem>, holders: map<nat, nat>, next: nat)

  /** Every texture named anywhere was created before `next`. */
  predicate ValidBook(book: TextureBook)
  {
    (forall id :: id in book.txRefs ==> book.txRefs[id].texture < book.next) &&
    (forall t :: t in book.holders ==> t < book.next)
  }

  /** How many DDBs hold texture t: none once it has expired. */
  function Holders(book: TextureBook, t: nat): nat
  {
    if t in book.holders then book.holders[t] else 0
  }

  predicate Expired(book: TextureBook, t: nat)
  {
    Holders(book, t) == 0
  }

  /** A DDB made on texture t: one more holder of t. */
  function Hold(book: TextureBook, t: nat): (r: TextureBook)
    ensures Holders(r, t) == Holders(book, t) + 1
    ensures forall u :: u != t ==> Holders(r, u) == Holders(book, u)
    ensures r.txRefs == book.txRefs && r.next == book.next
    ensures ValidBook(book) && t < book.next ==> ValidBook(r)
  {
    book.(holders := book.holders[t := Holders(book, t) + 1])
  }

  /** The cache entry of a sprite whose texture is still held by some DDB. */
  predicate HasLiveEntry(book: TextureBook, spriteId: int)
  {
    spriteId in book.txRefs && !Expired(book, book.txRefs[spriteId].texture)
  }

  /** GetSharedDDB: a live cache entry is reused, at the size it was made;
      otherwise a new texture is made from the bitmap and recorded for the
      sprite unless the id is UINT32_MAX. */
  function GetShared(book: TextureBook, spriteId: int, width: int, height: int, colorDepth: int, isOpaque: bool)
    : (r: (TextureBook, Ddb))
    ensures HasLiveEntry(book, spriteId) ==>
      var item := book.txRefs[spriteId];
      r.1 == Ddb(spriteId, item.texture, item.width, item.height, item.colorDepth, isOpaque) &&
      r.0.txRefs == book.txRefs && r.0.next == book.next
    ensures !HasLiveEntry(book, spriteId) ==>
      r.1 == Ddb(spriteId, book.next, width, height, colorDepth, isOpaque) && r.0.next == book.next + 1 &&
      r.0.txRefs == (if spriteId != UINT32_MAX
                     then book.txRefs[spriteId := TextureCacheItem(book.next, width, height, colorDepth)]
                     else book.txRefs)
    ensures Holders(r.0, r.1.texture) == Holders(book, r.1.texture) + 1
    ensures forall u :: u != r.1.texture ==> Holders(r.0, u) == Holders(book, u)
    ensures ValidBook(book) ==> ValidBook(r.0) && r.1.texture < r.0.next
  {
    if HasLiveEntry(book, spriteId) then
      var item := book.txRefs[spriteId];
      (Hold(book, item.texture), Ddb(spriteId, item.texture, item.width, item.height, item.colorDepth, isOpaque))
    else
      var t := book.next;
      var recorded := if spriteId != UINT32_MAX
                      then book.txRefs[spriteId := TextureCacheItem(t, width, height, colorDepth)]
                      else book.txRefs;
      (Hold(TextureBook(recorded, book.holders, t + 1), t), Ddb(spriteId, t, width, height, colorDepth, isOpaque))
  }

  /** CreateDDB for a bitmap that is not a shared sprite: a texture of its
      own, not recorded in the cache. */
  function CreatePrivate(book: TextureBook, width: int, height: int, colorDepth: int, isOpaque: bool): (r: (TextureBook, Ddb))
    ensures r.1 == Ddb(UINT32_MAX, book.next, width, height, colorDepth, isOpaque)
    ensures r.0.txRefs == book.txRefs && r.0.next == book.next + 1
    ensures Holders(r.0, book.next) == Holders(book, book.next) + 1
    ensures forall u :: u != book.next ==> Holders(r.0, u) == Holders(book, u)
    ensures ValidBook(book) ==> ValidBook(r.0)
  {
    (Hold(book.(next := book.next + 1), book.next), Ddb(UINT32_MAX, book.next, width, height, colorDepth, isOpaque))
  }

  /** ClearSharedDDB: the sprite's entry is forgotten. */
  function ClearShared(book: TextureBook, spriteId: int): (r: TextureBook)
    ensures spriteId !in r.txRefs
    ensures forall id :: id != spriteId ==> (id in r.txRefs <==> id in book.txRefs)
    ensures forall id :: id != spriteId && id in r.txRefs ==> r.txRefs[id] == book.txRefs[id]
    ensures r.holders == book.holders && r.next == book.next
    ensures ValidBook(book) ==> ValidBook(r)
  {
    book.(txRefs := book.txRefs - {spriteId})
  }

  /** DestroyDDB: the DDB lets go of its texture; the cache entry for its
      sprite id is erased only when that entry's texture has expired. */
  function Destroy(book: TextureBook, d: Ddb): (r: TextureBook)
    requires Holders(book, d.texture) > 0
    ensures Holders(r, d.texture) == Holders(book, d.texture) - 1
    ensures forall u :: u != d.texture ==> Holders(r, u) == Holders(book, u)
    ensures r.next == book.next
    ensures d.refId in book.txRefs && Expired(r, book.txRefs[d.refId].texture) ==> r.txRefs == book.txRefs - {d.refId}
    ensures !(d.refId in book.txRefs && Expired(r, book.txRefs[d.refId].texture)) ==> r.txRefs == book.txRefs
    ensures ValidBook(book) ==> ValidBook(r)
  {
    var released := book.(holders := book.holders[d.texture := Holders(book, d.texture) - 1]);
    if d.refId in released.txRefs && Expired(released, released.txRefs[d.refId].texture)
    then released.(txRefs := released.txRefs - {d.refId})
    else released
  }

  /** UpdateSharedDDB: the texture re-uploaded, if the sprite has a live one. */
  function SharedTextureToUpdate(book: TextureBook, spriteId: int): (r: Option<nat>)
    ensures r.Some? <==> HasLiveEntry(book, spriteId)
    ensures r.Some? ==> r.value == book.txRefs[spriteId].texture
  {
    if HasLiveEntry(book, spriteId) then Some(book.txRefs[spriteId].texture) else None
  }

  /** Two requests for the same sprite while the first DDB is alive share
      one texture. */
  lemma SecondRequestSharesTexture(book: TextureBook, spriteId: int, w: int, h: int, depth: int, isOpaque: bool,
                                   w2: int, h2: int, depth2: int, opaque2: bool)
    requires ValidBook(book) && spriteId != UINT32_MAX
    ensures var (book1, d1) := GetShared(book, spriteId, w, h, depth, isOpaque);
      GetShared(book1, spriteId, w2, h2, depth2, opaque2).1.texture == d1.texture
  {
    var (book1, d1) := GetShared(book, spriteId, w, h, depth, isOpaque);
    assert HasLiveEntry(book1, spriteId);
  }

  /** Making a DDB for a sprite with no cache entry and destroying it again
      leaves the cache as it was: the new entry expires with its only DDB. */
  lemma GetThenDestroyRestoresCache(book: TextureBook, spriteId: int, w: int, h: int, depth: int, isOpaque: bool)
    requires ValidBook(book) && spriteId !in book.txRefs
    ensures var (book1, d) := GetShared(book, spriteId, w, h, depth, isOpaque);
      Destroy(book1, d).txRefs == book.txRefs &&
      forall u :: Holders(Destroy(book1, d), u) == Holders(book, u)
  {
    var (book1, d) := GetShared(book, spriteId, w, h, depth, isOpaque);
    assert Holders(book, d.texture) == 0;
    if spriteId != UINT32_MAX {
      assert book1.txRefs[spriteId].texture == d.texture;
      assert book1.txRefs - {spriteId} == book.txRefs;
    }
  }

  // ---------------------------------------------------------------------
  // Stage screens and screen effects

  /** A memory bitmap, known here by its size and colour depth. */
  datatype BitmapShape = BitmapShape(width: int, height: int, colorDepth: int)

  datatype StageScreen = StageScreen(bitmap: Option<BitmapShape>, ddb: Option<Ddb>)

  const NO_STAGE: StageScreen := StageScreen(None, None)

  /** An effect pool entry: its bitmap and DDB, and the colour last filled. */
  datatype ScreenFx = ScreenFx(raw: Option<BitmapShape>, ddb: Option<Ddb>, red: int, green: int, blue: int)

  const NEW_FX: ScreenFx := ScreenFx(None, None, FX_NO_COLOUR, FX_NO_COLOUR, FX_NO_COLOUR)

  /** Releasing the DDB of a slot, if it holds one. */
  function ReleaseSlot(book: TextureBook, ddb: Option<Ddb>): TextureBook
  {
    if ddb.Some? && Holders(book, ddb.value.texture) > 0 then Destroy(book, ddb.value) else book
  }

  /** Releasing the DDBs of a list of slots, first to last. */
  function ReleaseAll(book: TextureBook, ddbs: seq<Option<Ddb>>): (r: TextureBook)
    ensures r.next == book.next
    ensures ValidBook(book) ==> ValidBook(r)
    ensures forall u :: (forall k :: 0 <= k < |ddbs| ==> ddbs[k].None? || ddbs[k].value.texture != u) ==>
      Holders(r, u) == Holders(book, u)
  {
    if |ddbs| == 0 then book else ReleaseSlot(ReleaseAll(book, ddbs[..|ddbs| - 1]), ddbs[|ddbs| - 1])
  }

  function ScreenDdbs(screens: seq<StageScreen>): (r: seq<Option<Ddb>>)
    ensures |r| == |screens| && forall k :: 0 <= k < |screens| ==> r[k] == screens[k].ddb
  {
    seq(|screens|, k requires 0 <= k < |screens| => screens[k].ddb)
  }

  function FxDdbs(pool: seq<ScreenFx>): (r: seq<Option<Ddb>>)
    ensures |r| == |pool| && forall k :: 0 <= k < |pool| ==> r[k] == pool[k].ddb
  {
    seq(|pool|, k requires 0 <= k < |pool| => pool[k].ddb)
  }

  /** The stage screen slots and effect entries hold DDBs that are alive. */
  predicate SlotsHeld(book: TextureBook, screens: seq<StageScreen>, pool: seq<ScreenFx>)
  {
    (forall k :: 0 <= k < |screens| && screens[k].ddb.Some? ==> Holders(book, screens[k].ddb.value.texture) > 0) &&
    (forall k :: 0 <= k < |pool| && pool[k].ddb.Some? ==> Holders(book, pool[k].ddb.value.texture) > 0)
  }

  /** VideoMemoryGraphicsDriver's own state. */
  class VideoMemoryDriver {
    const base: GraphicsDriverBase
    var book: TextureBook
    var stageScreens: seq<StageScreen>
    var stageScreen: StageScreen
    var stageScreenDirty: bool
    var fxPool: seq<ScreenFx>
    var fxIndex: nat

    predicate Valid()
      reads this
    {
      ValidBook(book) && fxIndex <= |fxPool|
    }

    constructor (driverBase: GraphicsDriverBase)
      ensures Valid() && base == driverBase
      ensures book == TextureBook(map[], map[], 0) && stageScreens == [] && stageScreen == NO_STAGE
      ensures !stageScreenDirty && fxPool == [] && fxIndex == 0
    {
      base := driverBase;
      book := TextureBook(map[], map[], 0);
      stageScreens := [];
      stageScreen := NO_STAGE;
      stageScreenDirty := false;
      fxPool := [];
      fxIndex := 0;
    }

    /** GetStageBackBuffer: the stage bitmap; asking to mark it dirty does so. */
    method GetStageBackBuffer(markDirty: bool) returns (bitmap: Option<BitmapShape>)
      modifies this
      ensures bitmap == stageScreen.bitmap && stageScreenDirty == (old(stageScreenDirty) || markDirty)
      ensures book == old(book) && stageScreens == old(stageScreens) && stageScreen == old(stageScreen)
      ensures fxPool == old(fxPool) && fxIndex == old(fxIndex)
    {
      stageScreenDirty := stageScreenDirty || markDirty;
      bitmap := stageScreen.bitmap;
    }

    method GetSharedDDB(spriteId: int, width: int, height: int, colorDepth: int, isOpaque: bool) returns (d: Ddb)
      requires Valid()
      modifies this
      ensures Valid() && (book, d) == GetShared(old(book), spriteId, width, height, colorDepth, isOpaque)
      ensures stageScreens == old(stageScreens) && stageScreen == old(stageScreen) && stageScreenDirty == old(stageScreenDirty)
      ensures fxPool == old(fxPool) && fxIndex == old(fxIndex)
    {
      if spriteId in book.txRefs && Holders(book, book.txRefs[spriteId].texture) > 0 {
        var item := book.txRefs[spriteId];
        book := Hold(book, item.texture);
        return Ddb(spriteId, item.texture, item.width, item.height, item.colorDepth, isOpaque);
      }
      var t := book.next;
      if spriteId != UINT32_MAX {
        book := book.(txRefs := book.txRefs[spriteId := TextureCacheItem(t, width, height, colorDepth)]);
      }
      book := Hold(book.(next := t + 1), t);
      d := Ddb(spriteId, t, width, height, colorDepth, isOpaque);
    }

    method ClearSharedDDB(spriteId: int)
      requires Valid()
      modifies this
      ensures Valid() && book == ClearShared(old(book), spriteId)
      ensures stageScreens == old(stageScreens) && stageScreen == old(stageScreen) && stageScreenDirty == old(stageScreenDirty)
      ensures fxPool == old(fxPool) && fxIndex == old(fxIndex)
    {
      if spriteId in book.txRefs {
        book := book.(txRefs := book.txRefs - {spriteId});
      }
    }

    method DestroyDDB(d: Ddb)
      requires Valid() && Holders(book, d.texture) > 0
      modifies this
      ensures Valid() && book == Destroy(old(book), d)
      ensures stageScreens == old(stageScreens) && stageScreen == old(stageScreen) && stageScreenDirty == old(stageScreenDirty)
      ensures fxPool == old(fxPool) && fxIndex == old(fxIndex)
    {
      book := book.(holders := book.holders[d.texture := Holders(book, d.texture) - 1]);
      if d.refId in book.txRefs && Holders(book, book.txRefs[d.refId].texture) == 0 {
        book := book.(txRefs := book.txRefs - {d.refId});
      }
    }

    /** CreateStageScreen: the slot list grows to hold `index`; a null size
        empties the slot; a different size replaces its bitmap and DDB at
        the mode's colour depth; the same size keeps them. */
    method CreateStageScreen(index: nat, sz: Size) returns (screen: StageScreen)
      requires Valid() && SlotsHeld(book, stageScreens, fxPool)
      modifies this
      ensures |stageScreens| == (if |old(stageScreens)| <= index then index + 1 else |old(stageScreens)|)
      ensures Valid() && screen == stageScreens[index]
      ensures forall k :: 0 <= k < |stageScreens| && k != index ==>
        stageScreens[k] == (if k < |old(stageScreens)| then old(stageScreens)[k] else NO_STAGE)
      ensures var before := if index < |old(stageScreens)| then old(stageScreens)[index] else NO_STAGE;
        if SizeIsNull(sz) then
          screen == NO_STAGE && book == ReleaseSlot(old(book), before.ddb)
        else if before.bitmap.None? || before.bitmap.value.width != sz.width || before.bitmap.value.height != sz.height then
          var released := ReleaseSlot(old(book), before.ddb);
          var (created, ddb) := CreatePrivate(released, sz.width, sz.height, base.mode.colorDepth, false);
          screen == StageScreen(Some(BitmapShape(sz.width, sz.height, base.mode.colorDepth)), Some(ddb)) &&
          book == created
        else
          screen == before && book == old(book)
      ensures stageScreen == old(stageScreen) && stageScreenDirty == old(stageScreenDirty)
      ensures fxPool == old(fxPool) && fxIndex == old(fxIndex)
    {
      if |stageScreens| <= index {
        stageScreens := stageScreens + seq(index + 1 - |stageScreens|, _ => NO_STAGE);
      }
      var slot := stageScreens[index];
      if SizeIsNull(sz) {
        if slot.ddb.Some? {
          DestroyDDB(slot.ddb.value);
        }
        stageScreens := stageScreens[index := NO_STAGE];
      } else if slot.bitmap.None? || slot.bitmap.value.width != sz.width || slot.bitmap.value.height != sz.height {
        if slot.ddb.Some? {
          DestroyDDB(slot.ddb.value);
        }
        var depth := base.mode.colorDepth;
        var t := book.next;
        book := Hold(book.(next := t + 1), t);
        var ddb := Ddb(UINT32_MAX, t, sz.width, sz.height, depth, false);
        stageScreens := stageScreens[index := StageScreen(Some(BitmapShape(sz.width, sz.height, depth)), Some(ddb))];
      }
      screen := stageScreens[index];
    }

    /** DestroyAllStageScreens: every slot lets go of its bitmap and DDB;
        the slot list keeps its length; the current stage screen is
        forgotten without releasing its DDB. */
    method DestroyAllStageScreens()
      requires Valid()
      modifies this
      ensures Valid()
      ensures |stageScreens| == |old(stageScreens)| && forall k :: 0 <= k < |stageScreens| ==> stageScreens[k] == NO_STAGE
      ensures book == ReleaseAll(old(book), ScreenDdbs(old(stageScreens)))
      ensures stageScreen == NO_STAGE && stageScreenDirty == old(stageScreenDirty)
      ensures fxPool == old(fxPool) && fxIndex == old(fxIndex)
    {
      ghost var ddbs := ScreenDdbs(stageScreens);
      var i := 0;
      while i < |stageScreens|
        invariant 0 <= i <= |stageScreens| == |ddbs|
        invariant Valid() && fxPool == old(fxPool) && fxIndex == old(fxIndex)
        invariant forall k :: 0 <= k < i ==> stageScreens[k] == NO_STAGE
        invariant forall k :: i <= k < |stageScreens| ==> stageScreens[k].ddb == ddbs[k]
        invariant book == ReleaseAll(old(book), ddbs[..i])
        invariant stageScreen == old(stageScreen) && stageScreenDirty == old(stageScreenDirty)
      {
        assert ddbs[..i + 1][..i] == ddbs[..i];
        var ddb := stageScreens[i].ddb;
        if ddb.Some? && Holders(book, ddb.value.texture) > 0 {
          DestroyDDB(ddb.value);
        }
        stageScreens := stageScreens[i := NO_STAGE];
        i := i + 1;
      }
      assert ddbs[..i] == ddbs;
      stageScreen := NO_STAGE;
    }

    /** DestroyFxPool: every entry's DDB is released and the pool emptied. */
    method DestroyFxPool()
      requires Valid()
      modifies this
      ensures Valid() && fxPool == [] && fxIndex == 0
      ensures book == ReleaseAll(old(book), FxDdbs(old(fxPool)))
      ensures stageScreens == old(stageScreens) && stageScreen == old(stageScreen) && stageScreenDirty == old(stageScreenDirty)
    {
      ghost var ddbs := FxDdbs(fxPool);
      var i := 0;
      while i < |fxPool|
        invariant 0 <= i <= |fxPool| == |ddbs| && fxPool == old(fxPool) && fxIndex == old(fxIndex)
        invariant Valid()
        invariant ValidBook(book) && book == ReleaseAll(old(book), ddbs[..i])
        invariant stageScreens == old(stageScreens) && stageScreen == old(stageScreen) && stageScreenDirty == old(stageScreenDirty)
      {
        assert ddbs[..i + 1][..i] == ddbs[..i];
        var ddb := fxPool[i].ddb;
        if ddb.Some? && Holders(book, ddb.value.texture) > 0 {
          DestroyDDB(ddb.value);
        }
        i := i + 1;
      }
      assert ddbs[..i] == ddbs;
      fxPool := [];
      fxIndex := 0;
    }

    /** GetStageScreen: the slot, or an empty one past the end of the list. */
    function GetStageScreen(index: nat): (screen: StageScreen)
      reads this
      ensures index >= |stageScreens| ==> screen == NO_STAGE
    {
      if index < |stageScreens| then stageScreens[index] else NO_STAGE
    }

    /** MakeFx: the entry at _fxIndex, added to the pool when the index has
        reached its end, given a 16x16 bitmap and DDB on first use, and
        refilled only when the colour differs from the one it holds. */
    method MakeFx(r: int, g: int, b: int) returns (ddb: Ddb)
      requires Valid()
      modifies this
      ensures Valid()
      ensures fxIndex == old(fxIndex) + 1
      ensures |fxPool| == (if old(fxIndex) == |old(fxPool)| then |old(fxPool)| + 1 else |old(fxPool)|)
      ensures forall k :: 0 <= k < |old(fxPool)| && k != old(fxIndex) ==> fxPool[k] == old(fxPool)[k]
      ensures var before := if old(fxIndex) < |old(fxPool)| then old(fxPool)[old(fxIndex)] else NEW_FX;
        var fx := fxPool[old(fxIndex)];
        fx.red == r && fx.green == g && fx.blue == b && fx.ddb == Some(ddb) &&
        (before.ddb.Some? ==> fx.raw == before.raw && ddb == before.ddb.value && book == old(book)) &&
        (before.ddb.None? ==>
          fx.raw == Some(BitmapShape(FX_BITMAP_SIZE, FX_BITMAP_SIZE, base.mode.colorDepth)) &&
          (book, ddb) == CreatePrivate(old(book), FX_BITMAP_SIZE, FX_BITMAP_SIZE, base.mode.colorDepth, true))
      ensures stageScreens == old(stageScreens) && stageScreen == old(stageScreen) && stageScreenDirty == old(stageScreenDirty)
    {
      if fxIndex == |fxPool| {
        fxPool := fxPool + [NEW_FX];
      }
      var fx := fxPool[fxIndex];
      if fx.ddb.None? {
        var depth := base.mode.colorDepth;
        var t := book.next;
        book := Hold(book.(next := t + 1), t);
        fx := fx.(raw := Some(BitmapShape(FX_BITMAP_SIZE, FX_BITMAP_SIZE, depth)),
                  ddb := Some(Ddb(UINT32_MAX, t, FX_BITMAP_SIZE, FX_BITMAP_SIZE, depth, true)));
      }
      if r != fx.red || g != fx.green || b != fx.blue {
        fx := fx.(red := r, green := g, blue := b);
      }
      fxPool := fxPool[fxIndex := fx];
      fxIndex := fxIndex + 1;
      ddb := fx.ddb.value;
    }

    /** ResetFxPool: the pool is reused from its first entry. */
    method ResetFxPool()
      modifies this
      ensures fxIndex == 0 && fxPool == old(fxPool) && book == old(book)
      ensures stageScreens == old(stageScreens) && stageScreen == old(stageScreen) && stageScreenDirty == old(stageScreenDirty)
    {
      fxIndex := 0;
    }

    /** DoNullSpriteCallback: without a plugin callback drawing a null
        sprite is an error; otherwise the stage is dirty exactly when the
        callback returned non-zero. */
    method DoNullSpriteCallback(callbackResult: Option<int>) returns (r: Result<bool>)
      modifies this
      ensures callbackResult.None? ==> r == Err(NULL_SPRITE_ERROR) && stageScreenDirty == old(stageScreenDirty)
      ensures callbackResult.Some? ==> r == Ok(callbackResult.value != 0) && stageScreenDirty == (callbackResult.value != 0)
      ensures book == old(book) && stageScreens == old(stageScreens) && stageScreen == old(stageScreen)
      ensures fxPool == old(fxPool) && fxIndex == old(fxIndex)
    {
      if callbackResult.None? {
        return Err(NULL_SPRITE_ERROR);
      }
      stageScreenDirty := false;
      stageScreenDirty := stageScreenDirty || callbackResult.value != 0;
      return Ok(stageScreenDirty);
    }
  }
}
