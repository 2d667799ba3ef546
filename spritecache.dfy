// The sprite cache: a table of sprite slots, each with an image, the
// ISASSET / REMAPPED / LOCKED flags and a byte size; a most-recently-used
// (MRU) list of slots whose images may be disposed, oldest at the tail; and
// byte-size accounting against a maximum cache size.
module SpriteCacheModel {
  import opened Wrappers
  import opened CInt

  const MIN_SPRITE_INDEX: int := 1
  const MAX_SPRITE_INDEX: int := INT32_MAX - 1
  const DEFAULTCACHESIZE_KB: int := 128 * 1024

  /** A loaded sprite bitmap, as far as the cache looks at it. */
  datatype Image = Image(id: int, width: nat, height: nat, bpp: nat)

  /** Per-slot metrics shared with the game (SpriteInfo). */
  datatype SpriteInfo = SpriteInfo(flags: int, width: int, height: int)

  const DefaultInfo := SpriteInfo(0, 0, 0)

  /** An entry of the MRU list: a list node (its identity) and the slot it names. */
  datatype MruEntry = MruEntry(node: nat, sprite: int)

  /** Per-slot cache data; mruIt is the slot's iterator into the MRU list. */
  datatype SpriteData = SpriteData(image: Option<Image>, isAsset: bool, remapped: bool,
                                   locked: bool, size: SizeT, mruIt: Option<nat>)
  {
    /** Has a loaded bitmap, or is found in the game resources. */
    predicate DoesSpriteExist() { image.Some? || isAsset }
    /** Has a loaded bitmap that neither comes from the resources nor was remapped. */
    predicate IsExternalSprite() { image.Some? && !isAsset && !remapped }
  }

  const EmptyData := SpriteData(None, false, false, false, 0, None)

  /** The vector resize of the source: truncate, or pad with the default value. */
  function Resize<T>(s: seq<T>, n: nat, d: T): (r: seq<T>)
    ensures |r| == n
    ensures forall i :: 0 <= i < n && i < |s| ==> r[i] == s[i]
    ensures forall i :: |s| <= i < n ==> r[i] == d
  {
    if n <= |s| then s[..n] else s + seq(n - |s|, _ => d)
  }

  /** Position of list node `node` in the MRU list, if it is there. */
  function FindNode(mru: seq<MruEntry>, node: nat): (k: Option<nat>)
    ensures k.Some? ==> k.value < |mru| && mru[k.value].node == node
    ensures k.None? ==> forall i :: 0 <= i < |mru| ==> mru[i].node != node
    ensures k.Some? ==> forall i :: 0 <= i < k.value ==> mru[i].node != node
  {
    if |mru| == 0 then None
    else if mru[0].node == node then Some(0)
    else match FindNode(mru[1..], node)
      case None => None
      case Some(k) => Some(k + 1)
  }

  /** Every slot of `after` is the slot of `before`, or that slot with its image
      disposed, which only happens to unlocked asset sprites. */
  ghost predicate OnlyUnlockedAssetsFreed(before: seq<SpriteData>, after: seq<SpriteData>)
  {
    |after| == |before| &&
    forall i :: 0 <= i < |before| ==>
      after[i] == before[i] ||
      (before[i].isAsset && !before[i].locked && after[i] == before[i].(image := None))
  }

  /** The slot table after DisposeAll: images of unlocked asset sprites freed. */
  function DisposedAll(s: seq<SpriteData>): (r: seq<SpriteData>)
    ensures OnlyUnlockedAssetsFreed(s, r)
    ensures forall i :: 0 <= i < |r| && s[i].isAsset && !s[i].locked ==> r[i].image.None?
  {
    seq(|s|, i requires 0 <= i < |s| =>
      if !s[i].locked && s[i].isAsset then s[i].(image := None) else s[i])
  }

  class SpriteCache {
    var spriteData: seq<SpriteData>
    /** The game's sprite metrics, which the cache resizes together with its slots. */
    var sprInfos: seq<SpriteInfo>
    /** Most recently used first; the tail is disposed first. */
    var mru: seq<MruEntry>
    /** Identity of the next MRU list node to be allocated. */
    var nextNode: nat
    var cacheSize: SizeT
    var lockedSize: SizeT
    var maxCacheSize: SizeT
    /** The sprite file: the bitmap stored for a data index, if it loads. */
    const loadFromFile: int -> Option<Image>
    /** The engine's initialize_sprite: the bitmap that replaces a freshly loaded one. */
    const initializeSprite: (int, Image) -> Image

    ghost predicate Valid()
      reads this
    {
      |spriteData| <= |sprInfos| &&
      |spriteData| <= MAX_SPRITE_INDEX + 1 &&
      (forall i :: 0 <= i < |mru| ==> 0 <= mru[i].sprite < |spriteData| && mru[i].node < nextNode) &&
      (forall i, j :: 0 <= i < j < |mru| ==> mru[i].node != mru[j].node)
    }

    constructor (infos: seq<SpriteInfo>, loader: int -> Option<Image>, init: (int, Image) -> Image)
      ensures Valid()
      ensures sprInfos == infos && spriteData == [] && mru == []
      ensures maxCacheSize == DEFAULTCACHESIZE_KB * 1024 && cacheSize == 0 && lockedSize == 0
      ensures loadFromFile == loader && initializeSprite == init
    {
      sprInfos := infos;
      spriteData := [];
      mru := [];
      nextNode := 0;
      maxCacheSize := DEFAULTCACHESIZE_KB * 1024;
      cacheSize := 0;
      lockedSize := 0;
      loadFromFile := loader;
      initializeSprite := init;
    }

    function GetSpriteSlotCount(): (n: nat)
      reads this
      ensures n == |spriteData|
    {
      |spriteData|
    }

    /** A slot exists iff its index is in range and it has a loaded image or
        is an asset of the game resources. */
    predicate DoesSpriteExist(index: int)
      reads this
      ensures DoesSpriteExist(index) <==>
        0 <= index < |spriteData| && (spriteData[index].image.Some? || spriteData[index].isAsset)
    {
      0 <= index < |spriteData| && spriteData[index].DoesSpriteExist()
    }

    /** Remapped slots read their data from slot 0. */
    function GetDataIndex(index: int): (d: int)
      requires 0 <= index < |spriteData|
      reads this
      ensures d == 0 || d == index
      ensures d == index <==> (!spriteData[index].remapped || index == 0)
    {
      if !spriteData[index].remapped then index else 0
    }

    method SetMaxCacheSize(size: SizeT)
      requires Valid()
      modifies this
      ensures Valid()
      ensures maxCacheSize == size && lockedSize == old(lockedSize) && sprInfos == old(sprInfos)
      ensures |mru| == 0 || cacheSize < SubSizeT(maxCacheSize, 0)
      ensures |mru| <= |old(mru)| && mru == old(mru)[..|mru|]
      ensures OnlyUnlockedAssetsFreed(old(spriteData), spriteData)
    {
      maxCacheSize := size;
      FreeMem(0);
    }

    method Reset()
      modifies this
      ensures Valid()
      ensures spriteData == [] && mru == [] && cacheSize == 0 && lockedSize == 0
      ensures sprInfos == old(sprInfos) && maxCacheSize == old(maxCacheSize)
    {
      spriteData := [];
      mru := [];
      cacheSize := 0;
      lockedSize := 0;
    }

    /** Grows both tables so that `topmost` is a valid slot; -1 for an index
        that can never be one. */
    method EnlargeTo(topmost: Int32) returns (r: int)
      requires Valid()
      modifies this
      ensures Valid()
      ensures topmost < 0 || topmost > MAX_SPRITE_INDEX ==> r == -1 && spriteData == old(spriteData) && sprInfos == old(sprInfos)
      ensures 0 <= topmost < old(|spriteData|) ==> r == topmost && spriteData == old(spriteData) && sprInfos == old(sprInfos)
      ensures old(|spriteData|) <= topmost <= MAX_SPRITE_INDEX ==>
        r == topmost &&
        spriteData == old(spriteData) + seq(topmost + 1 - old(|spriteData|), _ => EmptyData) &&
        sprInfos == Resize(old(sprInfos), topmost + 1, DefaultInfo)
      ensures r != -1 ==> r == topmost && r < |spriteData|
      ensures mru == old(mru) && nextNode == old(nextNode)
      ensures cacheSize == old(cacheSize) && lockedSize == old(lockedSize) && maxCacheSize == old(maxCacheSize)
    {
      if topmost < 0 || topmost > MAX_SPRITE_INDEX {
        return -1;
      }
      if topmost < |spriteData| {
        return topmost;
      }
      var newsize := topmost + 1;
      sprInfos := Resize(sprInfos, newsize, DefaultInfo);
      spriteData := Resize(spriteData, newsize, EmptyData);
      r := topmost;
    }

    /** Assigns an externally created bitmap to a slot. */
    method SetSprite(index: Int32, sprite: Option<Image>)
      requires Valid()
      modifies this
      ensures Valid()
      ensures index < 0 || index > MAX_SPRITE_INDEX ==> spriteData == old(spriteData) && sprInfos == old(sprInfos)
      ensures 0 <= index <= MAX_SPRITE_INDEX ==> index < |spriteData|
      ensures 0 <= index <= MAX_SPRITE_INDEX && sprite.None? ==>
        spriteData[..] == Resize(old(spriteData), |spriteData|, EmptyData) && |spriteData| == Max(old(|spriteData|), index + 1)
      ensures 0 <= index <= MAX_SPRITE_INDEX && sprite.Some? ==>
        spriteData[index].image == sprite &&
        spriteData[index].locked && !spriteData[index].isAsset && !spriteData[index].remapped &&
        spriteData[index].size == 0 &&
        (forall i :: 0 <= i < |spriteData| && i != index ==> spriteData[i] == Resize(old(spriteData), |spriteData|, EmptyData)[i])
      ensures mru == old(mru) && cacheSize == old(cacheSize) && lockedSize == old(lockedSize) && maxCacheSize == old(maxCacheSize)
    {
      var e := -1;
      if index >= 0 {
        e := EnlargeTo(index);
      }
      if index < 0 || e != index {
        return;
      }
      if sprite.None? {
        return;
      }
      spriteData := spriteData[index := spriteData[index].(image := sprite, isAsset := false,
                                                          remapped := false, locked := true, size := 0)];
    }

    /** Makes a slot an empty placeholder that shows sprite 0. */
    method SetEmptySprite(index: Int32, asAsset: bool)
      requires Valid()
      modifies this
      ensures Valid()
      ensures index < 0 || index > MAX_SPRITE_INDEX ==> spriteData == old(spriteData) && sprInfos == old(sprInfos)
      ensures 0 <= index <= MAX_SPRITE_INDEX ==>
        index < |spriteData| &&
        spriteData[index].image.None? && spriteData[index].remapped &&
        spriteData[index].size == spriteData[0].size &&
        sprInfos[index] == sprInfos[0] &&
        (asAsset ==> spriteData[index].isAsset && !spriteData[index].locked)
      ensures 0 <= index <= MAX_SPRITE_INDEX ==>
        var d := Resize(old(spriteData), Max(old(|spriteData|), index + 1), EmptyData);
        var infos := if index < old(|spriteData|) then old(sprInfos) else Resize(old(sprInfos), index + 1, DefaultInfo);
        var slot := if asAsset then d[index].(isAsset := true, remapped := false, locked := false) else d[index];
        spriteData == d[index := slot.(image := None, size := d[0].size, remapped := true)] &&
        sprInfos == infos[index := infos[0]]
      ensures nextNode == old(nextNode)
      ensures mru == old(mru) && cacheSize == old(cacheSize) && lockedSize == old(lockedSize) && maxCacheSize == old(maxCacheSize)
    {
      var e := -1;
      if index >= 0 {
        e := EnlargeTo(index);
      }
      if index < 0 || e != index {
        return;
      }
      if asAsset {
        spriteData := spriteData[index := spriteData[index].(isAsset := true, remapped := false, locked := false)];
      }
      RemapSpriteToSprite0(index);
    }

    /** Replaces the bitmap of an existing sprite. */
    method SubstituteBitmap(index: Int32, sprite: Option<Image>)
      requires Valid()
      modifies this
      ensures Valid()
      ensures old(DoesSpriteExist(index)) ==> spriteData == old(spriteData)[index := old(spriteData)[index].(image := sprite)]
      ensures !old(DoesSpriteExist(index)) ==> spriteData == old(spriteData)
      ensures sprInfos == old(sprInfos) && mru == old(mru) && cacheSize == old(cacheSize)
      ensures lockedSize == old(lockedSize) && maxCacheSize == old(maxCacheSize)
    {
      if !DoesSpriteExist(index) {
        return;
      }
      spriteData := spriteData[index := spriteData[index].(image := sprite)];
    }

    /** The lowest slot from MIN_SPRITE_INDEX on with no sprite, reset to
        defaults; or, when every slot is taken, one slot appended. */
    method GetFreeIndex() returns (r: int)
      requires Valid()
      modifies this
      ensures Valid()
      ensures MIN_SPRITE_INDEX <= r < old(|spriteData|) ==>
        !old(DoesSpriteExist(r)) &&
        (forall i :: MIN_SPRITE_INDEX <= i < r ==> old(DoesSpriteExist(i))) &&
        spriteData == old(spriteData)[r := EmptyData] && sprInfos == old(sprInfos)[r := DefaultInfo]
      ensures (r < MIN_SPRITE_INDEX || r >= old(|spriteData|)) ==>
        (forall i :: MIN_SPRITE_INDEX <= i < old(|spriteData|) ==> old(DoesSpriteExist(i)))
      ensures r == old(|spriteData|) ==>
        (spriteData == old(spriteData) + [EmptyData] && sprInfos == Resize(old(sprInfos), r + 1, DefaultInfo))
      ensures !(MIN_SPRITE_INDEX <= r < old(|spriteData|)) ==> (r == -1 <==> old(|spriteData|) > MAX_SPRITE_INDEX)
      ensures r == -1 || MIN_SPRITE_INDEX <= r < old(|spriteData|) || r == old(|spriteData|)
      ensures mru == old(mru) && cacheSize == old(cacheSize) && lockedSize == old(lockedSize) && maxCacheSize == old(maxCacheSize)
    {
      var i := MIN_SPRITE_INDEX;
      while i < |spriteData|
        invariant MIN_SPRITE_INDEX <= i
        invariant i <= |spriteData| || |spriteData| < MIN_SPRITE_INDEX
        invariant forall k :: MIN_SPRITE_INDEX <= k < i && k < |spriteData| ==> DoesSpriteExist(k)
        invariant spriteData == old(spriteData) && sprInfos == old(sprInfos)
        decreases |spriteData| - i
      {
        if !DoesSpriteExist(i) {
          sprInfos := sprInfos[i := DefaultInfo];
          spriteData := spriteData[i := EmptyData];
          return i;
        }
        i := i + 1;
      }
      r := EnlargeTo(|spriteData|);
    }

    /** The MRU list without its tail node, and the slot table after the tail
        sprite's image is disposed (unlocked assets only). */
    method DisposeOldest()
      requires Valid()
      modifies this
      ensures Valid()
      ensures old(mru) == [] ==> mru == [] && spriteData == old(spriteData) && cacheSize == old(cacheSize)
      ensures old(mru) != [] ==> mru == old(mru)[..|old(mru)| - 1]
      ensures old(mru) != [] ==>
        var s := old(mru)[|old(mru)| - 1].sprite;
        var d := old(spriteData)[s];
        if d.isAsset && !d.locked then
          spriteData == old(spriteData)[s := d.(image := None)] && cacheSize == SubSizeT(old(cacheSize), d.size)
        else
          spriteData == old(spriteData) && cacheSize == old(cacheSize)
      ensures OnlyUnlockedAssetsFreed(old(spriteData), spriteData)
      ensures sprInfos == old(sprInfos) && nextNode == old(nextNode)
      ensures lockedSize == old(lockedSize) && maxCacheSize == old(maxCacheSize)
    {
      if |mru| == 0 {
        return;
      }
      var sprnum := mru[|mru| - 1].sprite;
      if !spriteData[sprnum].isAsset {
        mru := mru[..|mru| - 1];
        return;
      }
      if !spriteData[sprnum].locked {
        cacheSize := SubSizeT(cacheSize, spriteData[sprnum].size);
        spriteData := spriteData[sprnum := spriteData[sprnum].(image := None)];
      }
      mru := mru[..|mru| - 1];
    }

    /** Frees every unlocked asset image, empties the MRU list and leaves only
        the locked sprites accounted. */
    method DisposeAll()
      requires Valid()
      modifies this
      ensures Valid()
      ensures spriteData == DisposedAll(old(spriteData))
      ensures cacheSize == old(lockedSize) && mru == []
      ensures sprInfos == old(sprInfos) && nextNode == old(nextNode)
      ensures lockedSize == old(lockedSize) && maxCacheSize == old(maxCacheSize)
    {
      var i := 0;
      while i < |spriteData|
        invariant 0 <= i <= |spriteData| == |old(spriteData)|
        invariant spriteData[..i] == DisposedAll(old(spriteData))[..i]
        invariant spriteData[i..] == old(spriteData)[i..]
        invariant sprInfos == old(sprInfos) && mru == old(mru) && nextNode == old(nextNode)
        invariant cacheSize == old(cacheSize) && lockedSize == old(lockedSize) && maxCacheSize == old(maxCacheSize)
      {
        if !spriteData[i].locked && spriteData[i].isAsset {
          spriteData := spriteData[i := spriteData[i].(image := None)];
        }
        assert spriteData[..i + 1] == spriteData[..i] + [spriteData[i]];
        assert DisposedAll(old(spriteData))[..i + 1] == DisposedAll(old(spriteData))[..i] + [DisposedAll(old(spriteData))[i]];
        i := i + 1;
      }
      assert spriteData == spriteData[..i];
      cacheSize := lockedSize;
      mru := [];
    }

    /** Disposes the oldest sprites until the MRU list is empty or the cache,
        with `space` more bytes, stays below its maximum. */
    method FreeMem(space: SizeT)
      requires Valid()
      modifies this
      ensures Valid()
      ensures |mru| == 0 || cacheSize < SubSizeT(maxCacheSize, space)
      ensures |mru| <= |old(mru)| && mru == old(mru)[..|mru|]
      ensures OnlyUnlockedAssetsFreed(old(spriteData), spriteData)
      ensures sprInfos == old(sprInfos) && nextNode == old(nextNode)
      ensures lockedSize == old(lockedSize) && maxCacheSize == old(maxCacheSize)
    {
      var tries := 0;
      while |mru| > 0 && cacheSize >= SubSizeT(maxCacheSize, space)
        invariant Valid()
        invariant |mru| <= |old(mru)| && mru == old(mru)[..|mru|]
        invariant OnlyUnlockedAssetsFreed(old(spriteData), spriteData)
        invariant sprInfos == old(sprInfos) && nextNode == old(nextNode)
        invariant lockedSize == old(lockedSize) && maxCacheSize == old(maxCacheSize)
        decreases |mru|
      {
        ghost var before := spriteData;
        DisposeOldest();
        FreedTransitive(old(spriteData), before, spriteData);
        if tries > 1000 {
          before := spriteData;
          DisposeAll();
          FreedTransitive(old(spriteData), before, spriteData);
        }
        tries := tries + 1;
      }
    }

    /** Slot `index` shows sprite 0: same metrics and size, no own image. */
    method RemapSpriteToSprite0(index: int)
      requires Valid() && 0 <= index < |spriteData|
      modifies this
      ensures Valid()
      ensures sprInfos == old(sprInfos)[index := old(sprInfos)[0]]
      ensures spriteData == old(spriteData)[index := old(spriteData)[index].(
                image := None, size := old(spriteData)[0].size, remapped := true)]
      ensures mru == old(mru) && nextNode == old(nextNode) && cacheSize == old(cacheSize)
      ensures lockedSize == old(lockedSize) && maxCacheSize == old(maxCacheSize)
    {
      var info0 := sprInfos[0];
      sprInfos := sprInfos[index := info0];
      var size0 := spriteData[0].size;
      spriteData := spriteData[index := spriteData[index].(image := None, size := size0, remapped := true)];
    }

    /** The byte size LoadSprite accounts for a slot: width by height of the
        stored bitmap times the bytes per pixel of the converted one; 0 when
        the file has no bitmap for the slot's data index. */
    function LoadedSize(index: int): (size: SizeT)
      requires 0 <= index < |spriteData|
      reads this
      ensures loadFromFile(GetDataIndex(index)).None? ==> size == 0
    {
      match loadFromFile(GetDataIndex(index))
      case None => 0
      case Some(img) => ToSizeT(img.width * img.height * initializeSprite(index, img).bpp)
    }

    /** Loads a slot's bitmap from the file (through slot 0 when remapped),
        makes room for it and accounts its size; returns that size. */
    method LoadSprite(index: int) returns (size: SizeT)
      requires Valid()
      modifies this
      ensures Valid()
      ensures !(0 <= index < old(|spriteData|)) ==>
        size == 0 && spriteData == old(spriteData) && sprInfos == old(sprInfos) && mru == old(mru) && cacheSize == old(cacheSize)
      ensures |spriteData| == old(|spriteData|) && |sprInfos| == old(|sprInfos|)
      ensures 0 <= index < old(|spriteData|) ==> size == old(LoadedSize(index))
      ensures 0 <= index < old(|spriteData|) && loadFromFile(old(GetDataIndex(index))).None? ==>
        size == 0 && mru == old(mru) && cacheSize == old(cacheSize) &&
        spriteData == old(spriteData)[index := old(spriteData)[index].(image := None, size := old(spriteData)[0].size, remapped := true)] &&
        sprInfos == old(sprInfos)[index := old(sprInfos)[0]]
      ensures 0 <= index < old(|spriteData|) && loadFromFile(old(GetDataIndex(index))).Some? ==>
        var img := loadFromFile(old(GetDataIndex(index))).value;
        var loaded := old(spriteData)[index].(image := Some(initializeSprite(index, img)), locked := index == 0, size := size);
        size == ToSizeT(img.width * img.height * initializeSprite(index, img).bpp) &&
        (spriteData[index] == loaded || (index != 0 && loaded.isAsset && spriteData[index] == loaded.(image := None))) &&
        (forall i :: 0 <= i < |spriteData| && i != index ==>
           spriteData[i] == old(spriteData)[i] ||
           (old(spriteData)[i].isAsset && !old(spriteData)[i].locked && spriteData[i] == old(spriteData)[i].(image := None))) &&
        sprInfos == old(sprInfos)[index := old(sprInfos)[index].(width := img.width, height := img.height)]
      ensures |mru| <= |old(mru)| && mru == old(mru)[..|mru|] && nextNode == old(nextNode)
      ensures lockedSize == old(lockedSize) && maxCacheSize == old(maxCacheSize)
    {
      if index < 0 || index >= |spriteData| {
        return 0;
      }
      var loadIndex := GetDataIndex(index);
      var image := loadFromFile(loadIndex);
      if image.None? {
        RemapSpriteToSprite0(index);
        return 0;
      }
      var img := image.value;
      sprInfos := sprInfos[index := sprInfos[index].(width := img.width, height := img.height)];
      ghost var wasLocked := spriteData[index].locked;
      spriteData := spriteData[index := spriteData[index].(image := image, locked := true)];
      // initialize_sprite converts the bitmap and substitutes the result; the
      // slot is locked meanwhile, so the engine's lookups leave the MRU alone.
      var converted := initializeSprite(index, img);
      spriteData := spriteData[index := spriteData[index].(image := Some(converted))];
      if index != 0 {
        spriteData := spriteData[index := spriteData[index].(locked := false)];
      }
      size := ToSizeT(img.width * img.height * converted.bpp);
      ghost var lockedNow := spriteData[index].locked;
      FreeMem(size);
      assert spriteData[index].locked == lockedNow;
      spriteData := spriteData[index := spriteData[index].(size := size)];
      cacheSize := AddSizeT(cacheSize, size);
    }

    /** Moves the MRU list entry holding `node` to the front, when the list has one. */
    method MoveMruToFront(node: nat)
      requires Valid()
      modifies this
      ensures Valid()
      ensures spriteData == old(spriteData) && sprInfos == old(sprInfos) && nextNode == old(nextNode)
      ensures cacheSize == old(cacheSize) && lockedSize == old(lockedSize) && maxCacheSize == old(maxCacheSize)
      ensures var k := FindNode(old(mru), node);
        mru == if k.Some? then [old(mru)[k.value]] + old(mru)[..k.value] + old(mru)[k.value + 1..] else old(mru)
    {
      var k := FindNode(mru, node);
      if k.Some? {
        ghost var m0 := mru;
        mru := [mru[k.value]] + mru[..k.value] + mru[k.value + 1..];
        forall i, j | 0 <= i < j < |mru| ensures mru[i].node != mru[j].node {
          MovedToFrontDistinct(m0, k.value, i, j);
        }
      }
    }

    /** Puts a fresh MRU list node for a slot at the front and records it in the slot. */
    method PushMru(index: int)
      requires Valid() && 0 <= index < |spriteData|
      modifies this
      ensures Valid()
      ensures mru == [MruEntry(old(nextNode), index)] + old(mru) && nextNode == old(nextNode) + 1
      ensures spriteData == old(spriteData)[index := old(spriteData)[index].(mruIt := Some(old(nextNode)))]
      ensures sprInfos == old(sprInfos) && cacheSize == old(cacheSize)
      ensures lockedSize == old(lockedSize) && maxCacheSize == old(maxCacheSize)
    {
      var node := nextNode;
      nextNode := nextNode + 1;
      mru := [MruEntry(node, index)] + mru;
      spriteData := spriteData[index := spriteData[index].(mruIt := Some(node))];
    }

    /** operator[]: the slot's bitmap, loading it if needed; asset sprites that
        are neither external nor locked move to the MRU front. */
    method Get(index: Int32) returns (image: Option<Image>)
      requires Valid()
      modifies this
      ensures Valid()
      ensures |spriteData| == old(|spriteData|)
      ensures !(0 <= index < old(|spriteData|)) ==> image.None? && spriteData == old(spriteData) && mru == old(mru)
      ensures 0 <= index < old(|spriteData|) && (old(spriteData[index].IsExternalSprite()) || old(spriteData[index].locked)) ==>
        image == old(spriteData[index].image) && spriteData == old(spriteData) && mru == old(mru) &&
        cacheSize == old(cacheSize)
      ensures 0 <= index < old(|spriteData|) && !old(spriteData[index].IsExternalSprite()) && !old(spriteData[index].locked) ==>
        image == spriteData[index].image &&
        (old(spriteData[index].image.Some?) ==>
          spriteData == old(spriteData) &&
          (old(spriteData[index].mruIt).Some? && old(FindNode(mru, spriteData[index].mruIt.value)).Some? ==>
             var k := old(FindNode(mru, spriteData[index].mruIt.value)).value;
             mru == [old(mru)[k]] + old(mru)[..k] + old(mru)[k + 1..])) &&
        (old(spriteData[index].image.None?) ==> |mru| > 0 && mru[0].sprite == index &&
                                                 spriteData[index].mruIt == Some(mru[0].node))
      ensures 0 <= index < old(|spriteData|) && !old(spriteData[index].IsExternalSprite()) && !old(spriteData[index].locked) &&
              old(spriteData[index].image.None?) ==>
        var load := loadFromFile(old(GetDataIndex(index)));
        (load.None? ==>
           image.None? && spriteData[index].remapped && spriteData[index].size == old(spriteData[0].size) &&
           sprInfos[index] == old(sprInfos[0])) &&
        (load.Some? ==>
           spriteData[index].size == old(LoadedSize(index)) &&
           (image == Some(initializeSprite(index, load.value)) || (index != 0 && old(spriteData[index].isAsset) && image.None?)) &&
           sprInfos[index] == old(sprInfos[index]).(width := load.value.width, height := load.value.height))
      ensures |spriteData| == old(|spriteData|) && lockedSize == old(lockedSize) && maxCacheSize == old(maxCacheSize)
    {
      if index < 0 || index >= |spriteData| {
        return None;
      }
      if spriteData[index].IsExternalSprite() || spriteData[index].locked {
        return spriteData[index].image;
      }
      if spriteData[index].image.Some? {
        var it := spriteData[index].mruIt;
        if it.Some? {
          MoveMruToFront(it.value);
        }
      } else {
        var _ := LoadSprite(index);
        PushMru(index);
      }
      image := spriteData[index].image;
    }

    /** Erases the MRU list entry holding `node`, when the list has one. */
    method UnlinkMru(node: nat)
      requires Valid()
      modifies this
      ensures Valid()
      ensures spriteData == old(spriteData) && sprInfos == old(sprInfos) && nextNode == old(nextNode)
      ensures cacheSize == old(cacheSize) && lockedSize == old(lockedSize) && maxCacheSize == old(maxCacheSize)
      ensures var k := FindNode(old(mru), node);
        mru == if k.Some? then old(mru)[..k.value] + old(mru)[k.value + 1..] else old(mru)
    {
      var k := FindNode(mru, node);
      if k.Some? {
        ghost var m0 := mru;
        mru := mru[..k.value] + mru[k.value + 1..];
        forall i, j | 0 <= i < j < |mru| ensures mru[i].node != mru[j].node {
          RemovedDistinct(m0, k.value, i, j);
        }
      }
    }

    /** Marks a slot locked and moves `sprSize` into the locked size and the maximum. */
    method LockSlot(index: int, sprSize: SizeT)
      requires Valid() && 0 <= index < |spriteData|
      modifies this
      ensures Valid()
      ensures spriteData == old(spriteData)[index := old(spriteData)[index].(locked := true)]
      ensures maxCacheSize == AddSizeT(old(maxCacheSize), sprSize) && lockedSize == AddSizeT(old(lockedSize), sprSize)
      ensures mru == old(mru) && cacheSize == old(cacheSize) && sprInfos == old(sprInfos) && nextNode == old(nextNode)
    {
      maxCacheSize := AddSizeT(maxCacheSize, sprSize);
      lockedSize := AddSizeT(lockedSize, sprSize);
      spriteData := spriteData[index := spriteData[index].(locked := true)];
    }

    /** Loads and locks an asset sprite: its size moves out of the disposable
        cache into the locked size, and the maximum grows by the same amount. */
    method Precache(index: Int32)
      requires Valid()
      modifies this
      ensures Valid()
      ensures |spriteData| == old(|spriteData|)
      ensures !(0 <= index < old(|spriteData|)) || !old(spriteData[index].isAsset) ==>
        spriteData == old(spriteData) && mru == old(mru) && cacheSize == old(cacheSize) &&
        lockedSize == old(lockedSize) && maxCacheSize == old(maxCacheSize)
      ensures 0 <= index < old(|spriteData|) && old(spriteData[index].isAsset) ==>
        var sprSize := if old(spriteData[index].image.None?) then old(LoadedSize(index))
                       else if old(spriteData[index].locked) then 0 else old(spriteData[index].size);
        spriteData[index].locked &&
        maxCacheSize == AddSizeT(old(maxCacheSize), sprSize) && lockedSize == AddSizeT(old(lockedSize), sprSize)
      ensures 0 <= index < old(|spriteData|) && old(spriteData[index].isAsset) && old(spriteData[index].image.Some?) ==>
        spriteData == old(spriteData)[index := old(spriteData)[index].(locked := true)] && cacheSize == old(cacheSize) &&
        sprInfos == old(sprInfos)
      ensures 0 <= index < old(|spriteData|) && old(spriteData[index].isAsset) && old(spriteData[index].image.Some?) ==>
        var it := old(spriteData[index].mruIt);
        var k := if it.Some? && !old(spriteData[index].locked) then FindNode(old(mru), it.value) else None;
        mru == if k.Some? then old(mru)[..k.value] + old(mru)[k.value + 1..] else old(mru)
    {
      if index < 0 || index >= |spriteData| {
        return;
      }
      if !spriteData[index].isAsset {
        return;
      }
      var sprSize: SizeT := 0;
      if spriteData[index].image.None? {
        sprSize := LoadSprite(index);
      } else if !spriteData[index].locked {
        sprSize := spriteData[index].size;
        var it := spriteData[index].mruIt;
        if it.Some? {
          UnlinkMru(it.value);
        }
      }
      LockSlot(index, sprSize);
    }
  }

  function Max(a: int, b: int): int { if a < b then b else a }

  lemma FreedTransitive(a: seq<SpriteData>, b: seq<SpriteData>, c: seq<SpriteData>)
    requires OnlyUnlockedAssetsFreed(a, b) && OnlyUnlockedAssetsFreed(b, c)
    ensures OnlyUnlockedAssetsFreed(a, c)
  {
    forall i | 0 <= i < |a|
      ensures c[i] == a[i] || (a[i].isAsset && !a[i].locked && c[i] == a[i].(image := None))
    {
      if b[i] != a[i] {
        assert c[i] == b[i] || c[i] == b[i].(image := None);
        assert b[i].(image := None) == a[i].(image := None);
      }
    }
  }

  lemma MovedToFrontDistinct(m: seq<MruEntry>, k: nat, i: nat, j: nat)
    requires k < |m|
    requires forall a, b :: 0 <= a < b < |m| ==> m[a].node != m[b].node
    requires i < j < |m|
    ensures ([m[k]] + m[..k] + m[k + 1..])[i].node != ([m[k]] + m[..k] + m[k + 1..])[j].node
  {
    var n := [m[k]] + m[..k] + m[k + 1..];
    var pi := if i == 0 then k else if i <= k then i - 1 else i;
    var pj := if j == 0 then k else if j <= k then j - 1 else j;
    assert n[i] == m[pi] && n[j] == m[pj];
    assert pi != pj;
  }

  lemma RemovedDistinct(m: seq<MruEntry>, k: nat, i: nat, j: nat)
    requires k < |m|
    requires forall a, b :: 0 <= a < b < |m| ==> m[a].node != m[b].node
    requires i < j < |m| - 1
    ensures (m[..k] + m[k + 1..])[i].node != (m[..k] + m[k + 1..])[j].node
  {
    var n := m[..k] + m[k + 1..];
    var pi := if i < k then i else i + 1;
    var pj := if j < k then j else j + 1;
    assert n[i] == m[pi] && n[j] == m[pj];
  }
}
