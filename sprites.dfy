/**
 * The sprite registry (src/sprite_manager.rs): parallel vectors of sprite data and
 * sprite names kept in step with a name-to-index map, filled from parsed Aseprite
 * sheets. Textures are opaque handles supplied by the caller; file and texture
 * loading (asynchronous I/O) is not modelled.
 */
module Sprites {
  import opened Wrappers
  import opened Aseprite
  import StringOrder

  /** A type-safe index into the registry's sprite table; `#[derive(Default)]` gives index 0. */
  datatype SpriteId = SpriteId(index: nat)

  datatype Rect = Rect(x: real, y: real, w: real, h: real)

  /** An opaque GPU texture handle; cloning a handle yields the same texture. */
  datatype Texture = Texture(handle: nat)

  datatype SpriteData = SpriteData(texture: Texture, sourceRect: Rect)

  datatype AnimFrame = AnimFrame(sourceRect: Rect, duration: real)

  datatype AnimationData = AnimationData(texture: Texture, frames: seq<AnimFrame>)

  /** One parsed sprite sheet together with the texture loaded for it. */
  datatype Asset = Asset(data: AseData, texture: Texture)

  /** The registry's state, field for field. */
  datatype SpriteTables = SpriteTables(
    textures: seq<Texture>,
    sprites: seq<SpriteData>,
    animations: seq<AnimationData>,
    spriteNames: seq<string>,
    nameToId: map<string, nat>)

  const EmptyTables := SpriteTables([], [], [], [], map[])

  /**
   * `index` resolves every name of `names`, and always to the LAST position holding
   * that name (a re-used name points to its latest sprite).
   */
  ghost predicate IndexedBy(names: seq<string>, index: map<string, nat>)
  {
    && (forall n :: n in index ==> index[n] < |names| && names[index[n]] == n)
    && (forall i :: 0 <= i < |names| ==> names[i] in index && i <= index[names[i]])
  }

  /** The registry invariant: sprites and names are parallel, and the map indexes the names. */
  ghost predicate Consistent(t: SpriteTables)
  {
    |t.sprites| == |t.spriteNames| && IndexedBy(t.spriteNames, t.nameToId)
  }

  /** The effect of `add_sprite`: the new sprite gets the next free index. */
  function WithSprite(t: SpriteTables, name: string, data: SpriteData): SpriteTables
  {
    t.(sprites := t.sprites + [data],
       spriteNames := t.spriteNames + [name],
       nameToId := t.nameToId[name := |t.sprites|])
  }

  lemma AddSpriteKeepsIndex(t: SpriteTables, name: string, data: SpriteData)
    requires Consistent(t)
    ensures Consistent(WithSprite(t, name, data))
    ensures WithSprite(t, name, data).nameToId[name] == |t.sprites|
    ensures WithSprite(t, name, data).sprites[|t.sprites|] == data
    ensures forall n :: n in t.nameToId && n != name ==>
              n in WithSprite(t, name, data).nameToId && WithSprite(t, name, data).nameToId[n] == t.nameToId[n]
  {
    var t' := WithSprite(t, name, data);
    forall i | 0 <= i < |t'.spriteNames|
      ensures t'.spriteNames[i] in t'.nameToId && i <= t'.nameToId[t'.spriteNames[i]]
    {
      if i < |t.spriteNames| && t.spriteNames[i] != name {
        assert t'.spriteNames[i] == t.spriteNames[i];
      }
    }
  }

  /** The index is a function of the names alone: two maps that both index `names` agree. */
  lemma IndexDetermined(names: seq<string>, a: map<string, nat>, b: map<string, nat>)
    requires IndexedBy(names, a) && IndexedBy(names, b)
    ensures a == b
  {
    forall n | n in a ensures n in b && a[n] == b[n] {
      assert names[a[n]] == n;
      assert a[n] <= b[n];
      assert names[b[n]] == n;
      assert b[n] <= a[n];
    }
    forall n | n in b ensures n in a {
      assert names[b[n]] == n;
    }
  }

  /** Sprites are added one after another, in the order given. */
  function AddAll(t: SpriteTables, entries: seq<(string, SpriteData)>): SpriteTables
  {
    if entries == [] then t
    else
      var last := entries[|entries| - 1];
      WithSprite(AddAll(t, entries[..|entries| - 1]), last.0, last.1)
  }

  lemma AddAllSnoc(t: SpriteTables, entries: seq<(string, SpriteData)>, e: (string, SpriteData))
    ensures AddAll(t, entries + [e]) == WithSprite(AddAll(t, entries), e.0, e.1)
  {
    assert (entries + [e])[..|entries|] == entries;
  }

  /** Adding sprites one by one keeps the registry invariant. */
  lemma {:induction false} AddAllKeepsIndex(t: SpriteTables, entries: seq<(string, SpriteData)>)
    requires Consistent(t)
    ensures Consistent(AddAll(t, entries))
  {
    if entries != [] {
      var pre := entries[..|entries| - 1];
      AddAllKeepsIndex(t, pre);
      AddSpriteKeepsIndex(AddAll(t, pre), entries[|entries| - 1].0, entries[|entries| - 1].1);
    }
  }

  /** The entries' names and sprites are appended in order; textures and animations are untouched. */
  lemma {:induction false} AddAllAppends(t: SpriteTables, entries: seq<(string, SpriteData)>)
    ensures AddAll(t, entries).spriteNames == t.spriteNames + seq(|entries|, i requires 0 <= i < |entries| => entries[i].0)
    ensures AddAll(t, entries).sprites == t.sprites + seq(|entries|, i requires 0 <= i < |entries| => entries[i].1)
    ensures AddAll(t, entries).textures == t.textures
    ensures AddAll(t, entries).animations == t.animations
  {
    if entries != [] {
      var pre := entries[..|entries| - 1];
      AddAllAppends(t, pre);
    }
  }

  // ---------------------------------------------------------------------------
  // Turning a parsed sheet into sprites and animations
  // ---------------------------------------------------------------------------

  /** Neither slices nor a non-empty slice list: the whole of frame 0 is the one sprite. */
  predicate UsesWholeSheet(ase: AseData)
  {
    ase.meta.slices.None? || |ase.meta.slices.value| == 0
  }

  /**
   * Every index `load_aseprite` takes into `frames` is in range (otherwise the source
   * panics): frame 0 when the whole sheet is used, the first key's frame of every
   * keyed slice, and every frame of a non-empty tag range.
   */
  predicate Loadable(ase: AseData)
  {
    && (UsesWholeSheet(ase) ==> |ase.frames| > 0)
    && SlicesInRange(if ase.meta.slices.Some? then ase.meta.slices.value else [], ase.frames)
    && (ase.meta.frameTags.Some? ==>
          forall tag :: tag in ase.meta.frameTags.value ==> TagInRange(tag, ase.frames))
  }

  predicate SlicesInRange(slices: seq<AseSlice>, frames: seq<AseFrame>)
  {
    forall s :: s in slices && |s.keys| > 0 ==> s.keys[0].frame < |frames|
  }

  predicate TagInRange(tag: AseTag, frames: seq<AseFrame>)
  {
    tag.from <= tag.to ==> tag.to < |frames|
  }

  function WholeFrame(f: AseFrame): Rect
  {
    Rect(f.frame.x, f.frame.y, f.frame.w, f.frame.h)
  }

  /** The slice's bounds, offset by the position of the frame its first key refers to. */
  function SliceRect(frames: seq<AseFrame>, key: AseSliceKey): Rect
    requires key.frame < |frames|
  {
    var f := frames[key.frame].frame;
    Rect(f.x + key.bounds.x, f.y + key.bounds.y, key.bounds.w, key.bounds.h)
  }

  /** One `(name, sprite)` entry per slice that has a key, in slice order. */
  function SliceEntries(name: string, slices: seq<AseSlice>, frames: seq<AseFrame>, tex: Texture)
    : seq<(string, SpriteData)>
    requires SlicesInRange(slices, frames)
  {
    if slices == [] then []
    else
      var s := slices[|slices| - 1];
      var pre := SliceEntries(name, slices[..|slices| - 1], frames, tex);
      if |s.keys| > 0 then pre + [(name + "_" + s.name, SpriteData(tex, SliceRect(frames, s.keys[0])))]
      else pre
  }

  /** The entries of one more slice: those of the slices before it, then its own if it has a key. */
  lemma SliceEntriesStep(name: string, slices: seq<AseSlice>, i: nat, frames: seq<AseFrame>, tex: Texture)
    requires SlicesInRange(slices, frames) && i < |slices|
    ensures SlicesInRange(slices[..i], frames) && SlicesInRange(slices[..i + 1], frames)
    ensures |slices[i].keys| > 0 ==> slices[i].keys[0].frame < |frames|
    ensures SliceEntries(name, slices[..i + 1], frames, tex) ==
      SliceEntries(name, slices[..i], frames, tex) +
      if |slices[i].keys| > 0 then [(name + "_" + slices[i].name, SpriteData(tex, SliceRect(frames, slices[i].keys[0])))] else []
  {
    assert slices[..i + 1][..i] == slices[..i];
    assert slices[i] in slices;
  }

  /** The slices that have at least one key, in order. */
  function Keyed(slices: seq<AseSlice>): seq<AseSlice>
  {
    if slices == [] then []
    else if |slices[|slices| - 1].keys| > 0 then Keyed(slices[..|slices| - 1]) + [slices[|slices| - 1]]
    else Keyed(slices[..|slices| - 1])
  }

  lemma {:induction false} KeyedInRange(slices: seq<AseSlice>, frames: seq<AseFrame>)
    requires SlicesInRange(slices, frames)
    ensures forall s :: s in Keyed(slices) ==> s in slices && |s.keys| > 0 && s.keys[0].frame < |frames|
  {
    if slices != [] {
      KeyedInRange(slices[..|slices| - 1], frames);
    }
  }

  /**
   * Slice sprites: exactly one per keyed slice, in slice order, named
   * `"{name}_{slice.name}"`, cut from the first key's bounds.
   */
  lemma {:induction false} SliceEntriesAreKeyedSlices(name: string, slices: seq<AseSlice>, frames: seq<AseFrame>, tex: Texture)
    requires SlicesInRange(slices, frames)
    ensures var es := SliceEntries(name, slices, frames, tex);
      var ks := Keyed(slices);
      && |es| == |ks|
      && forall i :: 0 <= i < |es| ==>
           && es[i].0 == name + "_" + ks[i].name
           && |ks[i].keys| > 0 && ks[i].keys[0].frame < |frames|
           && es[i].1 == SpriteData(tex, SliceRect(frames, ks[i].keys[0]))
  {
    KeyedInRange(slices, frames);
    if slices != [] {
      SliceEntriesAreKeyedSlices(name, slices[..|slices| - 1], frames, tex);
    }
  }

  /** The sprites one sheet contributes. */
  function SheetEntries(name: string, ase: AseData, tex: Texture): (r: seq<(string, SpriteData)>)
    requires Loadable(ase)
  {
    if UsesWholeSheet(ase) then [(name, SpriteData(tex, WholeFrame(ase.frames[0])))]
    else SliceEntries(name, ase.meta.slices.value, ase.frames, tex)
  }

  /** Without usable slices a sheet gives exactly one sprite, named after the sheet and cut from frame 0. */
  lemma WholeSheetIsOneSprite(name: string, ase: AseData, tex: Texture)
    requires Loadable(ase) && UsesWholeSheet(ase)
    ensures SheetEntries(name, ase, tex) == [(name, SpriteData(tex, WholeFrame(ase.frames[0])))]
  {
  }

  lemma WholeSheetSprite(t: SpriteTables, name: string, ase: AseData, tex: Texture)
    requires Loadable(ase) && UsesWholeSheet(ase)
    ensures AddAll(t, SheetEntries(name, ase, tex)) == WithSprite(t, name, SpriteData(tex, WholeFrame(ase.frames[0])))
  {
    var e := (name, SpriteData(tex, WholeFrame(ase.frames[0])));
    AddAllSnoc(t, [], e);
    assert [] + [e] == [e];
  }

  /** A sheet frame as an animation frame, its duration converted from milliseconds to seconds. */
  function Shown(f: AseFrame): AnimFrame
  {
    AnimFrame(WholeFrame(f), f.duration as real / 1000.0)
  }

  /** One animation frame per sheet frame `from..=to`; an inverted range gives none. */
  function TagFrames(tag: AseTag, frames: seq<AseFrame>): (r: seq<AnimFrame>)
    requires TagInRange(tag, frames)
    ensures |r| == if tag.from <= tag.to then tag.to - tag.from + 1 else 0
    ensures forall k :: 0 <= k < |r| ==> r[k] == Shown(frames[tag.from + k])
  {
    if tag.from <= tag.to then
      seq(tag.to - tag.from + 1, k requires 0 <= k < tag.to - tag.from + 1 => Shown(frames[tag.from + k]))
    else []
  }

  /** One animation per tag, in tag order. */
  function TagAnimations(tags: seq<AseTag>, frames: seq<AseFrame>, tex: Texture): (r: seq<AnimationData>)
    requires forall tag :: tag in tags ==> TagInRange(tag, frames)
    ensures |r| == |tags|
    ensures forall i :: 0 <= i < |tags| ==>
              r[i].texture == tex &&
              |r[i].frames| == (if tags[i].from <= tags[i].to then tags[i].to - tags[i].from + 1 else 0)
  {
    if tags == [] then []
    else
      var pre := tags[..|tags| - 1];
      assert forall tag :: tag in pre ==> tag in tags;
      TagAnimations(pre, frames, tex) + [AnimationData(tex, TagFrames(tags[|tags| - 1], frames))]
  }

  /** Animation `i` is tag `i`'s frames on the sheet's texture. */
  lemma {:induction false} TagAnimationsFrames(tags: seq<AseTag>, frames: seq<AseFrame>, tex: Texture)
    requires forall tag :: tag in tags ==> TagInRange(tag, frames)
    ensures forall i :: 0 <= i < |tags| ==>
              TagInRange(tags[i], frames) &&
              TagAnimations(tags, frames, tex)[i] == AnimationData(tex, TagFrames(tags[i], frames))
  {
    if tags != [] {
      var pre := tags[..|tags| - 1];
      assert forall tag :: tag in pre ==> tag in tags;
      TagAnimationsFrames(pre, frames, tex);
      assert tags[|tags| - 1] in tags;
    }
  }

  /** The effect of `load_aseprite`: texture, then sprites, then animations. */
  function WithSheet(t: SpriteTables, name: string, ase: AseData, tex: Texture): SpriteTables
    requires Loadable(ase)
  {
    var withSprites := AddAll(t.(textures := t.textures + [tex]), SheetEntries(name, ase, tex));
    match ase.meta.frameTags
    case None => withSprites
    case Some(tags) =>
      withSprites.(animations := withSprites.animations + TagAnimations(tags, ase.frames, tex))
  }

  lemma SheetKeepsIndex(t: SpriteTables, name: string, ase: AseData, tex: Texture)
    requires Consistent(t) && Loadable(ase)
    ensures Consistent(WithSheet(t, name, ase, tex))
    ensures WithSheet(t, name, ase, tex).textures == t.textures + [tex]
    ensures |WithSheet(t, name, ase, tex).animations| ==
              |t.animations| + if ase.meta.frameTags.Some? then |ase.meta.frameTags.value| else 0
    ensures WithSheet(t, name, ase, tex).animations == t.animations +
              match ase.meta.frameTags
              case None => []
              case Some(tags) => TagAnimations(tags, ase.frames, tex)
  {
    AddAllKeepsIndex(t.(textures := t.textures + [tex]), SheetEntries(name, ase, tex));
    AddAllAppends(t.(textures := t.textures + [tex]), SheetEntries(name, ase, tex));
  }

  /** Every name of the index can be loaded. */
  predicate IndexLoadable(index: Option<seq<string>>, assets: string -> Asset)
  {
    index.Some? ==> forall n :: n in index.value ==> Loadable(assets(n).data)
  }

  /** Sheets loaded one after another, in the order given. */
  function LoadSheets(t: SpriteTables, names: seq<string>, assets: string -> Asset): SpriteTables
    requires forall n :: n in names ==> Loadable(assets(n).data)
  {
    if names == [] then t
    else
      var n := names[|names| - 1];
      var a := assets(n);
      assert forall m :: m in names[..|names| - 1] ==> m in names;
      WithSheet(LoadSheets(t, names[..|names| - 1], assets), n, a.data, a.texture)
  }

  /** The effect of `load_all`: nothing without a readable index, else its names in ascending order. */
  function AllLoaded(t: SpriteTables, index: Option<seq<string>>, assets: string -> Asset): SpriteTables
    requires IndexLoadable(index, assets)
  {
    match index
    case None => t
    case Some(files) =>
      SortedNamesLoadable(files, assets);
      LoadSheets(t, StringOrder.Sort(files), assets)
  }

  /** Sorting the index neither adds nor drops a name, so every sorted name can be loaded. */
  lemma SortedNamesLoadable(files: seq<string>, assets: string -> Asset)
    requires forall n :: n in files ==> Loadable(assets(n).data)
    ensures forall n :: n in StringOrder.Sort(files) ==> Loadable(assets(n).data)
  {
    var sorted := StringOrder.Sort(files);
    forall n | n in sorted
      ensures Loadable(assets(n).data)
    {
      assert n in multiset(sorted);
    }
  }

  lemma {:induction false} LoadSheetsKeepsIndex(t: SpriteTables, names: seq<string>, assets: string -> Asset)
    requires Consistent(t)
    requires forall n :: n in names ==> Loadable(assets(n).data)
    ensures Consistent(LoadSheets(t, names, assets))
    ensures |LoadSheets(t, names, assets).textures| == |t.textures| + |names|
  {
    if names != [] {
      var pre := names[..|names| - 1];
      assert forall m :: m in pre ==> m in names;
      LoadSheetsKeepsIndex(t, pre, assets);
      var a := assets(names[|names| - 1]);
      SheetKeepsIndex(LoadSheets(t, pre, assets), names[|names| - 1], a.data, a.texture);
    }
  }

  // ---------------------------------------------------------------------------
  // The registry object
  // ---------------------------------------------------------------------------

  class SpriteManager {
    var textures: seq<Texture>
    var sprites: seq<SpriteData>
    var animations: seq<AnimationData>
    var spriteNames: seq<string>
    var nameToId: map<string, nat>

    function State(): SpriteTables
      reads this
    {
      SpriteTables(textures, sprites, animations, spriteNames, nameToId)
    }

    ghost predicate Valid()
      reads this
    {
      Consistent(State())
    }

    /** `SpriteManager::new`: every table empty. */
    constructor ()
      ensures Valid() && State() == EmptyTables
    {
      textures, sprites, animations := [], [], [];
      spriteNames, nameToId := [], map[];
    }

    method AddSprite(name: string, data: SpriteData)
      requires Valid()
      modifies this
      ensures Valid()
      ensures State() == WithSprite(old(State()), name, data)
    {
      AddSpriteKeepsIndex(State(), name, data);
      var id := |sprites|;
      sprites := sprites + [data];
      spriteNames := spriteNames + [name];
      nameToId := nameToId[name := id];
    }

    method LoadAseprite(name: string, ase: AseData, texture: Texture)
      requires Valid() && Loadable(ase)
      modifies this
      ensures Valid()
      ensures State() == WithSheet(old(State()), name, ase, texture)
    {
      textures := textures + [texture];
      AddSheetSprites(name, ase, texture);
      if ase.meta.frameTags.Some? {
        AddTagAnimations(ase.meta.frameTags.value, ase.frames, texture);
      }
    }

    /** The sprite half of `load_aseprite`: frame 0 as a whole, or one sprite per keyed slice. */
    method AddSheetSprites(name: string, ase: AseData, texture: Texture)
      requires Valid() && Loadable(ase)
      modifies this
      ensures Valid()
      ensures State() == AddAll(old(State()), SheetEntries(name, ase, texture))
    {
      match ase.meta.slices {
        case Some(slices) =>
          if |slices| == 0 {
            var f := ase.frames[0].frame;
            WholeSheetSprite(old(State()), name, ase, texture);
            AddSprite(name, SpriteData(texture, Rect(f.x, f.y, f.w, f.h)));
          } else {
            AddSliceSprites(name, slices, ase.frames, texture);
          }
        case None =>
          var f := ase.frames[0].frame;
          WholeSheetSprite(old(State()), name, ase, texture);
          AddSprite(name, SpriteData(texture, Rect(f.x, f.y, f.w, f.h)));
      }
    }

    /** The slice loop of `load_aseprite`: one sprite per slice that has a key, in slice order. */
    method AddSliceSprites(name: string, slices: seq<AseSlice>, frames: seq<AseFrame>, texture: Texture)
      requires Valid() && SlicesInRange(slices, frames)
      modifies this
      ensures Valid()
      ensures State() == AddAll(old(State()), SliceEntries(name, slices, frames, texture))
    {
      ghost var start := State();
      for i := 0 to |slices|
        invariant Valid()
        invariant State() == AddAll(start, SliceEntries(name, slices[..i], frames, texture))
      {
        SliceEntriesStep(name, slices, i, frames, texture);
        if |slices[i].keys| > 0 {
          var key := slices[i].keys[0];
          var frameRect := frames[key.frame].frame;
          var bounds := key.bounds;
          var atlasX := frameRect.x + bounds.x;
          var atlasY := frameRect.y + bounds.y;
          var entry := (name + "_" + slices[i].name, SpriteData(texture, Rect(atlasX, atlasY, bounds.w, bounds.h)));
          assert entry.1 == SpriteData(texture, SliceRect(frames, key));
          AddAllSnoc(start, SliceEntries(name, slices[..i], frames, texture), entry);
          AddSprite(entry.0, entry.1);
        } else {
          assert SliceEntries(name, slices[..i + 1], frames, texture) == SliceEntries(name, slices[..i], frames, texture);
        }
      }
      assert slices[..|slices|] == slices;
    }

    /** The animation half of `load_aseprite`: one animation per tag, appended in tag order. */
    method AddTagAnimations(tags: seq<AseTag>, frames: seq<AseFrame>, texture: Texture)
      requires Valid()
      requires forall tag :: tag in tags ==> TagInRange(tag, frames)
      modifies this
      ensures Valid()
      ensures State() == old(State()).(animations := old(State()).animations + TagAnimations(tags, frames, texture))
    {
      for j := 0 to |tags|
        invariant Valid()
        invariant State() == old(State()).(animations := old(State()).animations + TagAnimations(tags[..j], frames, texture))
      {
        assert tags[..j + 1][..j] == tags[..j];
        assert tags[j] in tags;
        var animFrames := CollectTagFrames(tags[j], frames);
        animations := animations + [AnimationData(texture, animFrames)];
      }
      assert tags[..|tags|] == tags;
    }

    method LoadAll(index: Option<seq<string>>, assets: string -> Asset)
      requires Valid() && IndexLoadable(index, assets)
      modifies this
      ensures Valid()
      ensures State() == AllLoaded(old(State()), index, assets)
    {
      match index {
        case None =>
        case Some(files) =>
          var sortedFiles := StringOrder.Sort(files);
          SortedNamesLoadable(files, assets);
          LoadInOrder(sortedFiles, assets);
      }
    }

    /** The loop of `load_all` over the sorted file names. */
    method LoadInOrder(names: seq<string>, assets: string -> Asset)
      requires Valid() && forall n :: n in names ==> Loadable(assets(n).data)
      modifies this
      ensures Valid()
      ensures State() == LoadSheets(old(State()), names, assets)
    {
      ghost var start := State();
      for i := 0 to |names|
        invariant Valid()
        invariant State() == LoadSheets(start, names[..i], assets)
      {
        assert names[..i + 1][..i] == names[..i];
        assert names[i] in names;
        var asset := assets(names[i]);
        LoadAseprite(names[i], asset.data, asset.texture);
      }
      assert names[..|names|] == names;
    }
  }

  /** The inner loop of `load_aseprite` over `tag.from..=tag.to`. */
  method CollectTagFrames(tag: AseTag, frames: seq<AseFrame>) returns (animFrames: seq<AnimFrame>)
    requires TagInRange(tag, frames)
    ensures animFrames == TagFrames(tag, frames)
  {
    animFrames := [];
    if tag.from <= tag.to {
      for i := tag.from to tag.to + 1
        invariant |animFrames| == i - tag.from
        invariant forall k :: 0 <= k < |animFrames| ==> animFrames[k] == Shown(frames[tag.from + k])
      {
        var f := frames[i];
        animFrames := animFrames + [AnimFrame(Rect(f.frame.x, f.frame.y, f.frame.w, f.frame.h), f.duration as real / 1000.0)];
      }
    }
  }
}
