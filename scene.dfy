/**
 * Saving and loading a scene (`Scene`, `save_scene`, `load_scene` in src/macros.rs).
 *
 * A scene holds one section per kind, in declaration order; each section lists
 * `(persisted id, component)` pairs. Saving takes a snapshot of the store, kind by
 * kind. Loading clears the store and replays the pairs in order, spawning one fresh
 * entity the first time a persisted id is met and inserting into that entity
 * afterwards. The byte encoding is a parameter of the model (`Codec`); the render
 * cache is `#[serde(skip)]`, so it is dropped on the way out and reset on the way in.
 */
module SceneCodec {
  import opened Wrappers
  import opened Schema
  import opened Ecs

  /** An entity's identifier as written to a file (`entity.to_bits()`). */
  type PersistedId = nat

  datatype Pair = Pair(id: PersistedId, comp: Component)

  /** One section per kind of the listing, each holding components of that kind only. */
  predicate SectionsTyped(ss: seq<seq<Pair>>)
  {
    |ss| == |Kinds| &&
    forall i, j :: 0 <= i < |ss| && 0 <= j < |ss[i]| ==> ss[i][j].comp.KindOf() == Kinds[i]
  }

  type Scene = ss: seq<seq<Pair>> | SectionsTyped(ss) witness [[], [], [], [], [], []]

  /** `Scene::default()`: every section empty. */
  const EmptyScene: Scene := [[], [], [], [], [], []]

  newtype byte = b: int | 0 <= b < 256

  type Bytes = seq<byte>

  /** The external serializer: MessagePack with named fields in the engine. */
  datatype Codec = Codec(encode: Scene -> Bytes, decode: Bytes -> Option<Scene>)

  // ---------------------------------------------------------------------------
  // The skipped render cache
  // ---------------------------------------------------------------------------

  /** No component of the scene carries a render cache. */
  predicate CacheFree(s: Scene)
  {
    forall i, j :: 0 <= i < |s| && 0 <= j < |s[i]| ==> s[i][j].comp == WithoutCache(s[i][j].comp)
  }

  function StripSection(sec: seq<Pair>): (r: seq<Pair>)
    ensures |r| == |sec|
    ensures forall j :: 0 <= j < |sec| ==> r[j] == Pair(sec[j].id, WithoutCache(sec[j].comp))
  {
    seq(|sec|, j requires 0 <= j < |sec| => Pair(sec[j].id, WithoutCache(sec[j].comp)))
  }

  /** The scene as serde sees it: every render cache at its default, `None`. */
  function StripScene(s: Scene): (r: Scene)
    ensures CacheFree(r)
    ensures forall i :: 0 <= i < |s| ==> r[i] == StripSection(s[i])
  {
    seq(|s|, i requires 0 <= i < |s| => StripSection(s[i]))
  }

  /** A scene without caches is left as it is. */
  lemma StripKeepsCacheFree(s: Scene)
    ensures CacheFree(s) ==> StripScene(s) == s
  {
    if CacheFree(s) {
      forall i | 0 <= i < |s|
        ensures StripScene(s)[i] == s[i]
      {
        assert StripSection(s[i]) == s[i];
      }
    }
  }

  /** Stripping the cache twice is stripping it once. */
  lemma StripSceneIdempotent(s: Scene)
    ensures StripScene(StripScene(s)) == StripScene(s)
  {
    StripKeepsCacheFree(StripScene(s));
  }

  /** `rmp_serde::to_vec_named(&scene)`: a scene without caches reaches the serializer unchanged. */
  function Encode(codec: Codec, s: Scene): (bytes: Bytes)
    ensures CacheFree(s) ==> bytes == codec.encode(s)
  {
    StripKeepsCacheFree(s);
    codec.encode(StripScene(s))
  }

  /** The cache never reaches the bytes: a scene and its cache-free copy encode alike. */
  lemma EncodeIgnoresCache(codec: Codec, s: Scene)
    ensures Encode(codec, StripScene(s)) == Encode(codec, s)
  {
    StripSceneIdempotent(s);
  }

  /** `rmp_serde::from_slice(data)`: a decoded scene never carries a render cache. */
  function Decode(codec: Codec, data: Bytes): (r: Option<Scene>)
    ensures r.Some? ==> CacheFree(r.value)
  {
    match codec.decode(data)
    case None => None
    case Some(s) => Some(StripScene(s))
  }

  /** The scene `load_scene` replays: the decoded one, or `Scene::default()` on failure. */
  function SceneOrDefault(codec: Codec, data: Bytes): (r: Scene)
    ensures Decode(codec, data).None? ==> r == EmptyScene
    ensures Decode(codec, data).Some? ==> r == Decode(codec, data).value
  {
    match Decode(codec, data)
    case None => EmptyScene
    case Some(s) => s
  }

  /**
   * The serializer reads back the scene it was handed for `s`: the cache-free copy. This
   * is a property of one scene, not of the codec as a whole; with `f32` fields the real
   * serializer has it exactly for the scenes whose values are representable.
   */
  predicate ReadsBack(codec: Codec, s: Scene)
  {
    codec.decode(codec.encode(StripScene(s))) == Some(StripScene(s))
  }

  /** Encoding then decoding gives the scene back, minus its render caches. */
  lemma EncodeDecode(codec: Codec, s: Scene)
    requires ReadsBack(codec, s)
    ensures Decode(codec, Encode(codec, s)) == Some(StripScene(s))
  {
    StripSceneIdempotent(s);
  }

  // ---------------------------------------------------------------------------
  // Replaying a scene
  // ---------------------------------------------------------------------------

  /** The pairs of the first `i` sections, in the order `load_scene` visits them. */
  function FlatUpTo(ss: seq<seq<Pair>>, i: nat): seq<Pair>
    requires i <= |ss|
  {
    if i == 0 then [] else FlatUpTo(ss, i - 1) + ss[i - 1]
  }

  function Flat(ss: seq<seq<Pair>>): seq<Pair>
  {
    FlatUpTo(ss, |ss|)
  }

  /** `Scene::default()` has no pairs at all. */
  lemma {:induction false} FlatOfEmpty(i: nat)
    requires i <= |EmptyScene|
    ensures FlatUpTo(EmptyScene, i) == []
  {
    if i > 0 {
      FlatOfEmpty(i - 1);
    }
  }

  /** The persisted ids a sequence of pairs mentions. */
  function Pids(pairs: seq<Pair>): set<PersistedId>
  {
    set p | p in pairs :: p.id
  }

  lemma PidsSnoc(pre: seq<Pair>, p: Pair)
    ensures Pids(pre + [p]) == Pids(pre) + {p.id}
  {
    var s := pre + [p];
    forall x | x in Pids(s)
      ensures x in Pids(pre) + {p.id}
    {
      var q :| q in s && q.id == x;
      if q != p {
        assert q in pre;
      }
    }
    assert s[|pre|] == p;
    forall x | x in Pids(pre)
      ensures x in Pids(s)
    {
      var q :| q in pre && q.id == x;
      assert q in s;
    }
  }

  /** The store, its counter and `id_map` while `load_scene` runs. */
  datatype LoadState = LoadState(entities: map<Entity, ComponentSet>, next: nat, idMap: map<PersistedId, Entity>)

  /** Every mapped persisted id names a live entity. */
  predicate Coherent(s: LoadState)
  {
    forall pid :: pid in s.idMap ==> s.idMap[pid] in s.entities
  }

  /**
   * One iteration of the load loop: `id_map.entry(old_id).or_insert_with(|| world.spawn(()))`
   * followed by `world.insert_one(new_entity, comp)`.
   */
  function Step(s: LoadState, p: Pair): (r: LoadState)
    requires Coherent(s)
    ensures Coherent(r)
  {
    if p.id in s.idMap then
      var e := s.idMap[p.id];
      s.(entities := s.entities[e := With(s.entities[e], p.comp)])
    else
      var e := s.next;
      LoadState(s.entities[e := With(NoComponents, p.comp)], s.next + 1, s.idMap[p.id := e])
  }

  /** Replaying `pairs` into a cleared store whose counter stands at `n0`. */
  function Replay(n0: nat, pairs: seq<Pair>): (r: LoadState)
    ensures Coherent(r)
  {
    if |pairs| == 0 then LoadState(map[], n0, map[])
    else Step(Replay(n0, pairs[..|pairs| - 1]), pairs[|pairs| - 1])
  }

  lemma ReplaySnoc(n0: nat, pre: seq<Pair>, p: Pair)
    ensures Replay(n0, pre + [p]) == Step(Replay(n0, pre), p)
  {
    assert (pre + [p])[..|pre|] == pre;
  }

  /** The identifiers `[a, b)`. */
  function Range(a: nat, b: nat): (r: set<Entity>)
    ensures forall e :: e in r <==> a <= e < b
    decreases b
  {
    if b <= a then {} else Range(a, b - 1) + {b - 1}
  }

  lemma {:induction false} RangeSize(a: nat, b: nat)
    requires a <= b
    ensures |Range(a, b)| == b - a
    decreases b
  {
    if a < b {
      RangeSize(a, b - 1);
    }
  }

  predicate Injective(m: map<PersistedId, Entity>)
  {
    forall x, y :: x in m && y in m && x != y ==> m[x] != m[y]
  }

  /**
   * One fresh entity per persisted id of `pids`, numbered from `n0` on, and distinct
   * persisted ids mapped to distinct entities.
   */
  ghost predicate Shaped(n0: nat, s: LoadState, pids: set<PersistedId>)
  {
    && s.idMap.Keys == pids
    && (forall e :: e in s.entities <==> n0 <= e < s.next)
    && Injective(s.idMap)
    && s.next == n0 + |pids|
  }

  lemma StepKeepsShape(n0: nat, s: LoadState, p: Pair, pids: set<PersistedId>)
    requires Coherent(s) && Shaped(n0, s, pids)
    ensures Shaped(n0, Step(s, p), pids + {p.id})
  {
    if p.id !in s.idMap {
      FreshShape(n0, s, p, pids);
    } else {
      OldShape(n0, s, p, pids);
    }
  }

  lemma FreshShape(n0: nat, s: LoadState, p: Pair, pids: set<PersistedId>)
    requires Coherent(s) && Shaped(n0, s, pids) && p.id !in s.idMap
    ensures Shaped(n0, Step(s, p), pids + {p.id})
  {
    var r := Step(s, p);
    assert r.entities == s.entities[s.next := With(NoComponents, p.comp)];
    forall e
      ensures e in r.entities <==> n0 <= e < r.next
    {
      assert e in r.entities <==> e == s.next || e in s.entities;
    }
    assert |pids + {p.id}| == |pids| + 1;
  }

  lemma OldShape(n0: nat, s: LoadState, p: Pair, pids: set<PersistedId>)
    requires Coherent(s) && Shaped(n0, s, pids) && p.id in s.idMap
    ensures Shaped(n0, Step(s, p), pids + {p.id})
  {
    assert pids + {p.id} == pids;
  }

  /** The shape of the store after a replay, for the ids the pairs mention. */
  lemma {:induction false} ReplayShape(n0: nat, pairs: seq<Pair>)
    ensures Shaped(n0, Replay(n0, pairs), Pids(pairs))
    decreases |pairs|
  {
    if |pairs| == 0 {
      assert Pids(pairs) == {};
    } else {
      var pre, p := pairs[..|pairs| - 1], pairs[|pairs| - 1];
      assert pairs == pre + [p];
      ReplayShape(n0, pre);
      PidsSnoc(pre, p);
      StepKeepsShape(n0, Replay(n0, pre), p, Pids(pre));
    }
  }

  /** After a replay the store holds exactly as many entities as the pairs have distinct ids. */
  lemma ReplayCount(n0: nat, pairs: seq<Pair>)
    ensures |Replay(n0, pairs).entities| == |Pids(pairs)|
  {
    var r := Replay(n0, pairs);
    ReplayShape(n0, pairs);
    RangeSize(n0, r.next);
    assert r.entities.Keys == Range(n0, r.next);
    assert |r.entities| == |r.entities.Keys|;
  }

  /** The components a persisted id accumulates from `pairs`, starting from `base`. */
  function Carried(base: ComponentSet, pairs: seq<Pair>, pid: PersistedId): ComponentSet
  {
    if |pairs| == 0 then base
    else
      var c := Carried(base, pairs[..|pairs| - 1], pid);
      if pairs[|pairs| - 1].id == pid then With(c, pairs[|pairs| - 1].comp) else c
  }

  lemma {:induction false} CarriedAbsent(base: ComponentSet, pairs: seq<Pair>, pid: PersistedId)
    requires pid !in Pids(pairs)
    ensures Carried(base, pairs, pid) == base
    decreases |pairs|
  {
    if |pairs| > 0 {
      var pre := pairs[..|pairs| - 1];
      assert pairs == pre + [pairs[|pairs| - 1]];
      PidsSnoc(pre, pairs[|pairs| - 1]);
      CarriedAbsent(base, pre, pid);
    }
  }

  lemma {:induction false} CarriedAppend(base: ComponentSet, a: seq<Pair>, b: seq<Pair>, pid: PersistedId)
    ensures Carried(base, a + b, pid) == Carried(Carried(base, a, pid), b, pid)
    decreases |b|
  {
    if |b| == 0 {
      assert a + b == a;
    } else {
      var pre := b[..|b| - 1];
      assert (a + b)[..|a + b| - 1] == a + pre;
      assert (a + b)[|a + b| - 1] == b[|b| - 1];
      CarriedAppend(base, a, pre, pid);
    }
  }

  /**
   * Every pair lands on the entity its persisted id was first mapped to: that entity
   * ends with exactly the components the id carries, across all kinds.
   */
  lemma {:induction false} ReplayCarries(n0: nat, pairs: seq<Pair>, pid: PersistedId)
    requires pid in Pids(pairs)
    ensures var r := Replay(n0, pairs);
      pid in r.idMap && r.entities[r.idMap[pid]] == Carried(NoComponents, pairs, pid)
    decreases |pairs|
  {
    var pre, p := pairs[..|pairs| - 1], pairs[|pairs| - 1];
    assert pairs == pre + [p];
    PidsSnoc(pre, p);
    ReplayShape(n0, pre);
    ReplayShape(n0, pairs);
    var s := Replay(n0, pre);
    var r := Replay(n0, pairs);
    assert r == Step(s, p);
    if pid in Pids(pre) {
      ReplayCarries(n0, pre, pid);
      if p.id == pid {
        assert r.entities[r.idMap[pid]] == With(s.entities[s.idMap[pid]], p.comp);
      } else if p.id in s.idMap {
        assert s.idMap[p.id] != s.idMap[pid];
      } else {
        assert s.next !in s.entities;
      }
    } else {
      CarriedAbsent(NoComponents, pre, pid);
      assert p.id == pid;
    }
  }

  /** A persisted id is mentioned exactly when it carries some component. */
  lemma {:induction false} PidsIffCarried(pairs: seq<Pair>, pid: PersistedId)
    ensures pid in Pids(pairs) <==> Carried(NoComponents, pairs, pid) != NoComponents
    decreases |pairs|
  {
    if pid !in Pids(pairs) {
      CarriedAbsent(NoComponents, pairs, pid);
    } else {
      var pre, p := pairs[..|pairs| - 1], pairs[|pairs| - 1];
      assert pairs == pre + [p];
      PidsSnoc(pre, p);
      if p.id == pid {
        var c := Carried(NoComponents, pre, pid);
        assert Get(With(c, p.comp), p.comp.KindOf()).Some?;
      } else {
        PidsIffCarried(pre, pid);
      }
    }
  }

  // ---------------------------------------------------------------------------
  // Snapshots
  // ---------------------------------------------------------------------------

  /** The component of kind `k` on entity `e`, if `e` is live and has one. */
  function Held(ents: map<Entity, ComponentSet>, e: Entity, k: Kind): (r: Option<Component>)
    ensures r.Some? ==> r.value.KindOf() == k
  {
    if e in ents then Get(ents[e], k) else None
  }

  predicate DistinctIds(sec: seq<Pair>)
  {
    forall a, b :: 0 <= a < b < |sec| ==> sec[a].id != sec[b].id
  }

  /** Every pair is a live entity's component of kind `k`, under that entity's id. */
  predicate PairsHeld(sec: seq<Pair>, ents: map<Entity, ComponentSet>, k: Kind)
  {
    forall p :: p in sec ==> Held(ents, p.id, k) == Some(p.comp)
  }

  /**
   * What `world.query_mut::<&K>()` collects: exactly one pair per live entity carrying
   * kind `k`, holding that entity's id and its component.
   */
  ghost predicate SectionOf(sec: seq<Pair>, ents: map<Entity, ComponentSet>, k: Kind)
  {
    && DistinctIds(sec)
    && PairsHeld(sec, ents, k)
    && forall e :: Held(ents, e, k).Some? ==> e in Pids(sec)
  }

  /** The scene `save_scene` builds from the store `ents`. */
  ghost predicate IsSnapshot(s: Scene, ents: map<Entity, ComponentSet>)
  {
    forall i :: 0 <= i < |Kinds| ==> SectionOf(s[i], ents, Kinds[i])
  }

  /** Within one section an id occurs at most once, so it carries at most that one component. */
  lemma {:induction false} SectionCarries(base: ComponentSet, sec: seq<Pair>, ents: map<Entity, ComponentSet>,
                                          k: Kind, e: PersistedId)
    requires DistinctIds(sec) && PairsHeld(sec, ents, k)
    ensures Carried(base, sec, e) == if e in Pids(sec) then With(base, Held(ents, e, k).value) else base
    decreases |sec|
  {
    if e !in Pids(sec) {
      CarriedAbsent(base, sec, e);
    } else {
      var pre, p := sec[..|sec| - 1], sec[|sec| - 1];
      assert sec == pre + [p];
      PidsSnoc(pre, p);
      assert p in sec;
      SectionCarries(base, pre, ents, k, e);
      if p.id != e {
        assert e in Pids(pre);
        var q :| q in pre && q.id == e;
        assert q in sec;
      }
    }
  }

  /** After the first `i` sections, an id holds exactly its entity's components of those kinds. */
  lemma {:induction false} FlatCarries(s: Scene, ents: map<Entity, ComponentSet>, i: nat, e: PersistedId)
    requires IsSnapshot(s, ents) && i <= |Kinds|
    ensures forall j :: 0 <= j < |Kinds| ==>
      Get(Carried(NoComponents, FlatUpTo(s, i), e), Kinds[j]) == if j < i then Held(ents, e, Kinds[j]) else None
  {
    if i > 0 {
      FlatCarries(s, ents, i - 1, e);
      KindsListedOnce();
      var k := Kinds[i - 1];
      var prev := Carried(NoComponents, FlatUpTo(s, i - 1), e);
      CarriedAppend(NoComponents, FlatUpTo(s, i - 1), s[i - 1], e);
      assert SectionOf(s[i - 1], ents, k);
      SectionCarries(prev, s[i - 1], ents, k, e);
    }
  }

  /** Replaying a snapshot gives every id exactly the components its entity had. */
  lemma SnapshotCarries(s: Scene, ents: map<Entity, ComponentSet>, e: PersistedId)
    requires IsSnapshot(s, ents)
    ensures Carried(NoComponents, Flat(s), e) == if e in ents then ents[e] else NoComponents
  {
    FlatCarries(s, ents, |Kinds|, e);
    var c := Carried(NoComponents, Flat(s), e);
    if e in ents {
      SetsEqualByKind(c, ents[e]);
    } else {
      SetsEqualByKind(c, NoComponents);
    }
  }

  /** The entities a save keeps: the live ones carrying at least one component. */
  function NonEmpty(ents: map<Entity, ComponentSet>): set<Entity>
  {
    set e | e in ents && ents[e] != NoComponents
  }

  /**
   * Loading a snapshot rebuilds the store up to relabelling: `id_map` is a bijection from
   * the entities that carried a component onto the new entities, each new entity carries
   * exactly its original's components, and entities without components are dropped.
   */
  lemma ReplaySnapshotRestores(n0: nat, s: Scene, ents: map<Entity, ComponentSet>)
    requires IsSnapshot(s, ents)
    ensures var r := Replay(n0, Flat(s));
      && r.idMap.Keys == NonEmpty(ents)
      && Injective(r.idMap)
      && |r.entities| == |NonEmpty(ents)|
      && forall e :: e in r.idMap ==> r.entities[r.idMap[e]] == ents[e]
  {
    var pairs := Flat(s);
    var r := Replay(n0, pairs);
    ReplayShape(n0, pairs);
    ReplayCount(n0, pairs);
    forall e
      ensures e in Pids(pairs) <==> e in NonEmpty(ents)
    {
      PidsIffCarried(pairs, e);
      SnapshotCarries(s, ents, e);
    }
    assert Pids(pairs) == NonEmpty(ents);
    forall e | e in r.idMap
      ensures r.entities[r.idMap[e]] == ents[e]
    {
      ReplayCarries(n0, pairs, e);
      SnapshotCarries(s, ents, e);
    }
  }

  // ---------------------------------------------------------------------------
  // Saving through the codec and loading back
  // ---------------------------------------------------------------------------

  /** A component set as it comes back from a file: the render cache reset. */
  function StripSet(cs: ComponentSet): (r: ComponentSet)
    ensures forall k :: Get(r, k) == if Get(cs, k).Some? then Some(WithoutCache(Get(cs, k).value)) else None
    ensures r == NoComponents <==> cs == NoComponents
  {
    cs.(render := if cs.render.Some? then Some(cs.render.value.(cachedSprite := None)) else None)
  }

  function StripStore(ents: map<Entity, ComponentSet>): map<Entity, ComponentSet>
  {
    map e | e in ents :: StripSet(ents[e])
  }

  /** The snapshot of a store, with its caches stripped, is a snapshot of the stripped store. */
  lemma StripKeepsSnapshot(s: Scene, ents: map<Entity, ComponentSet>)
    requires IsSnapshot(s, ents)
    ensures IsSnapshot(StripScene(s), StripStore(ents))
  {
    var t, st := StripScene(s), StripStore(ents);
    forall i | 0 <= i < |Kinds|
      ensures SectionOf(t[i], st, Kinds[i])
    {
      var k := Kinds[i];
      assert SectionOf(s[i], ents, k);
      assert t[i] == StripSection(s[i]);
      forall p | p in t[i]
        ensures Held(st, p.id, k) == Some(p.comp)
      {
        var j :| 0 <= j < |t[i]| && t[i][j] == p;
        assert s[i][j] in s[i];
      }
      forall e | Held(st, e, k).Some?
        ensures e in Pids(t[i])
      {
        assert Held(ents, e, k).Some?;
        var q :| q in s[i] && q.id == e;
        var j :| 0 <= j < |s[i]| && s[i][j] == q;
        assert t[i][j] in t[i];
      }
    }
  }

  /**
   * `load_scene(save_scene(world))`, when the serializer reads back what it wrote: the new store holds one
   * entity per original entity that carried a component, with the same components, render
   * caches reset.
   */
  lemma SaveLoadRoundTrip(codec: Codec, s: Scene, ents: map<Entity, ComponentSet>, n0: nat)
    requires ReadsBack(codec, s) && IsSnapshot(s, ents)
    ensures var r := Replay(n0, Flat(SceneOrDefault(codec, Encode(codec, s))));
      && r.idMap.Keys == NonEmpty(ents)
      && Injective(r.idMap)
      && |r.entities| == |NonEmpty(ents)|
      && forall e :: e in r.idMap ==> r.entities[r.idMap[e]] == StripSet(ents[e])
  {
    EncodeDecode(codec, s);
    StripKeepsSnapshot(s, ents);
    ReplaySnapshotRestores(n0, StripScene(s), StripStore(ents));
    assert NonEmpty(StripStore(ents)) == NonEmpty(ents);
  }

  // ---------------------------------------------------------------------------
  // The operations
  // ---------------------------------------------------------------------------

  /** `world.query_mut::<&K>()` mapped to `(entity.to_bits(), comp.clone())`. */
  method CollectKind(w: World, k: Kind) returns (sec: seq<Pair>)
    ensures SectionOf(sec, w.entities, k)
  {
    var todo := w.entities.Keys;
    sec := [];
    while todo != {}
      invariant todo <= w.entities.Keys
      invariant DistinctIds(sec) && PairsHeld(sec, w.entities, k)
      invariant forall p :: p in sec ==> p.id !in todo
      invariant forall e :: e !in todo && Held(w.entities, e, k).Some? ==> e in Pids(sec)
      decreases |todo|
    {
      var e :| e in todo;
      var got := Get(w.entities[e], k);
      if got.Some? {
        PidsSnoc(sec, Pair(e, got.value));
        sec := sec + [Pair(e, got.value)];
      }
      todo := todo - {e};
    }
  }

  /** The scene `save_scene` builds: one collected section per kind, in declaration order. */
  method CollectScene(w: World) returns (s: Scene)
    ensures IsSnapshot(s, w.entities)
  {
    var ss: seq<seq<Pair>> := [];
    var i := 0;
    while i < |Kinds|
      invariant 0 <= i <= |Kinds| && |ss| == i
      invariant forall j :: 0 <= j < i ==> SectionOf(ss[j], w.entities, Kinds[j])
    {
      var sec := CollectKind(w, Kinds[i]);
      ss := ss + [sec];
      i := i + 1;
    }
    forall j, m | 0 <= j < |ss| && 0 <= m < |ss[j]|
      ensures ss[j][m].comp.KindOf() == Kinds[j]
    {
      assert ss[j][m] in ss[j];
      assert SectionOf(ss[j], w.entities, Kinds[j]);
    }
    s := ss;
  }

  /** `save_scene`: the encoded snapshot of the store; the store itself is not changed. */
  method SaveScene(w: World, codec: Codec) returns (bytes: Bytes, ghost s: Scene)
    ensures IsSnapshot(s, w.entities)
    ensures bytes == Encode(codec, s)
  {
    var scene := CollectScene(w);
    bytes := Encode(codec, scene);
    s := scene;
  }

  /**
   * `load_scene`: clear the store, decode (falling back to the empty scene), then replay
   * every section in declaration order, spawning on an id's first occurrence.
   */
  method LoadScene(w: World, codec: Codec, data: Bytes)
    requires w.Valid()
    modifies w
    ensures w.Valid()
    ensures var r := Replay(old(w.next), Flat(SceneOrDefault(codec, data)));
      w.entities == r.entities && w.next == r.next
    ensures forall e :: e in w.entities ==> old(w.next) <= e
    ensures Decode(codec, data).None? ==> w.entities == map[]
  {
    w.Clear();
    ghost var n0 := w.next;
    var s := SceneOrDefault(codec, data);
    var idMap: map<PersistedId, Entity> := map[];
    var i := 0;
    while i < |s|
      invariant 0 <= i <= |s|
      invariant w.Valid()
      invariant LoadState(w.entities, w.next, idMap) == Replay(n0, FlatUpTo(s, i))
    {
      idMap := LoadSection(w, idMap, s[i], n0, FlatUpTo(s, i));
      i := i + 1;
    }
    ReplayShape(n0, Flat(s));
    if Decode(codec, data).None? {
      FlatOfEmpty(|s|);
    }
  }

  /** The loop `load_scene` runs over one kind's section, sharing `id_map` across kinds. */
  method LoadSection(w: World, idMap: map<PersistedId, Entity>, sec: seq<Pair>, ghost n0: nat, ghost done: seq<Pair>)
      returns (idMap': map<PersistedId, Entity>)
    requires w.Valid()
    requires LoadState(w.entities, w.next, idMap) == Replay(n0, done)
    modifies w
    ensures w.Valid()
    ensures LoadState(w.entities, w.next, idMap') == Replay(n0, done + sec)
  {
    idMap' := idMap;
    var j := 0;
    assert done + sec[..0] == done;
    while j < |sec|
      invariant 0 <= j <= |sec|
      invariant w.Valid()
      invariant LoadState(w.entities, w.next, idMap') == Replay(n0, done + sec[..j])
    {
      ReplaySnoc(n0, done + sec[..j], sec[j]);
      assert done + sec[..j + 1] == (done + sec[..j]) + [sec[j]];
      idMap' := LoadPair(w, idMap', sec[j]);
      j := j + 1;
    }
    assert sec[..|sec|] == sec;
  }

  /** One pair: find or spawn the pair's entity, then `world.insert_one(new_entity, comp)`. */
  method LoadPair(w: World, idMap: map<PersistedId, Entity>, p: Pair) returns (idMap': map<PersistedId, Entity>)
    requires w.Valid() && Coherent(LoadState(w.entities, w.next, idMap))
    modifies w
    ensures w.Valid()
    ensures LoadState(w.entities, w.next, idMap') == Step(LoadState(old(w.entities), old(w.next), idMap), p)
  {
    idMap' := idMap;
    var e: Entity;
    if p.id in idMap' {
      e := idMap'[p.id];
    } else {
      e := w.Spawn(NoComponents);
      idMap' := idMap'[p.id := e];
    }
    w.InsertOne(e, p.comp);
  }
}
