/**
 * What `define_all_components!` (src/macros.rs) generates from the component listing
 * of src/components.rs, interpreted from one central table instead of per-type code:
 * the closed set of kinds in declaration order, the per-entity component set, the
 * field-level reflection view of every component, and the generated `Default` impls.
 */
module Schema {
  import opened Wrappers
  import opened Sprites
  import opened Components

  // ---------------------------------------------------------------------------
  // Kinds and components
  // ---------------------------------------------------------------------------

  datatype Kind = PosKind | VelKind | RenderKind | CameraAnchorKind | PlayerKind | ColliderKind

  /** The kinds in the order the listing declares them; every generated loop follows it. */
  const Kinds: seq<Kind> := [PosKind, VelKind, RenderKind, CameraAnchorKind, PlayerKind, ColliderKind]

  /** The kind's type name (`stringify!($name)`), also its field name in a saved scene. */
  function KindName(k: Kind): string
  {
    match k
    case PosKind => "Pos"
    case VelKind => "Vel"
    case RenderKind => "Render"
    case CameraAnchorKind => "CameraAnchor"
    case PlayerKind => "Player"
    case ColliderKind => "Collider"
  }

  /** The listing names every kind exactly once, under distinct names. */
  lemma KindsListedOnce()
    ensures forall k :: k in Kinds
    ensures forall i, j :: 0 <= i < j < |Kinds| ==> Kinds[i] != Kinds[j] && KindName(Kinds[i]) != KindName(Kinds[j])
  {
    forall k: Kind ensures k in Kinds {
      match k
      case PosKind => assert Kinds[0] == k;
      case VelKind => assert Kinds[1] == k;
      case RenderKind => assert Kinds[2] == k;
      case CameraAnchorKind => assert Kinds[3] == k;
      case PlayerKind => assert Kinds[4] == k;
      case ColliderKind => assert Kinds[5] == k;
    }
  }

  /** A value of any one kind. */
  datatype Component =
    | PosComp(pos: Pos)
    | VelComp(vel: Vel)
    | RenderComp(render: Render)
    | CameraAnchorComp(cameraAnchor: CameraAnchor)
    | PlayerComp(player: Player)
    | ColliderComp(collider: Collider)
  {
    function KindOf(): Kind
    {
      match this
      case PosComp(_) => PosKind
      case VelComp(_) => VelKind
      case RenderComp(_) => RenderKind
      case CameraAnchorComp(_) => CameraAnchorKind
      case PlayerComp(_) => PlayerKind
      case ColliderComp(_) => ColliderKind
    }
  }

  /** What one entity carries: at most one value per kind. */
  datatype ComponentSet = ComponentSet(
    pos: Option<Pos>,
    vel: Option<Vel>,
    render: Option<Render>,
    cameraAnchor: Option<CameraAnchor>,
    player: Option<Player>,
    collider: Option<Collider>)

  const NoComponents := ComponentSet(None, None, None, None, None, None)

  /** The component of kind `k`, if the set has one. */
  function Get(cs: ComponentSet, k: Kind): (r: Option<Component>)
    ensures r.Some? ==> r.value.KindOf() == k
  {
    match k
    case PosKind => if cs.pos.Some? then Some(PosComp(cs.pos.value)) else None
    case VelKind => if cs.vel.Some? then Some(VelComp(cs.vel.value)) else None
    case RenderKind => if cs.render.Some? then Some(RenderComp(cs.render.value)) else None
    case CameraAnchorKind => if cs.cameraAnchor.Some? then Some(CameraAnchorComp(cs.cameraAnchor.value)) else None
    case PlayerKind => if cs.player.Some? then Some(PlayerComp(cs.player.value)) else None
    case ColliderKind => if cs.collider.Some? then Some(ColliderComp(cs.collider.value)) else None
  }

  /** Inserting a component: it replaces any value of its own kind and touches no other kind. */
  function With(cs: ComponentSet, c: Component): (r: ComponentSet)
    ensures Get(r, c.KindOf()) == Some(c)
    ensures forall k :: k != c.KindOf() ==> Get(r, k) == Get(cs, k)
  {
    match c
    case PosComp(v) => cs.(pos := Some(v))
    case VelComp(v) => cs.(vel := Some(v))
    case RenderComp(v) => cs.(render := Some(v))
    case CameraAnchorComp(v) => cs.(cameraAnchor := Some(v))
    case PlayerComp(v) => cs.(player := Some(v))
    case ColliderComp(v) => cs.(collider := Some(v))
  }

  /**
   * The component with its render cache emptied: what `#[serde(skip)]` leaves of a
   * `Render`, and what the inspector does after a sprite change. Other kinds have no cache.
   */
  function WithoutCache(c: Component): (r: Component)
    ensures r.KindOf() == c.KindOf()
    ensures r.RenderComp? ==> r.render == c.render.(cachedSprite := None)
    ensures !r.RenderComp? ==> r == c
  {
    match c
    case RenderComp(v) => RenderComp(v.(cachedSprite := None))
    case _ => c
  }

  /** A component set is determined by what it holds for each kind of the listing. */
  lemma SetsEqualByKind(a: ComponentSet, b: ComponentSet)
    requires forall i :: 0 <= i < |Kinds| ==> Get(a, Kinds[i]) == Get(b, Kinds[i])
    ensures a == b
  {
    assert Get(a, Kinds[0]) == Get(b, Kinds[0]);
    assert Get(a, Kinds[1]) == Get(b, Kinds[1]);
    assert Get(a, Kinds[2]) == Get(b, Kinds[2]);
    assert Get(a, Kinds[3]) == Get(b, Kinds[3]);
    assert Get(a, Kinds[4]) == Get(b, Kinds[4]);
    assert Get(a, Kinds[5]) == Get(b, Kinds[5]);
  }

  /** The set is empty exactly when no kind of the listing is present. */
  lemma EmptyIffNoKind(cs: ComponentSet)
    ensures cs == NoComponents <==> forall i :: 0 <= i < |Kinds| ==> Get(cs, Kinds[i]).None?
  {
    if forall i :: 0 <= i < |Kinds| ==> Get(cs, Kinds[i]).None? {
      SetsEqualByKind(cs, NoComponents);
    }
  }

  // ---------------------------------------------------------------------------
  // Field reflection
  // ---------------------------------------------------------------------------

  /** The runtime types a field can have: the facade's closed set, plus the render cache. */
  datatype FieldType =
    | F32T | F64T | I32T | U32T | I64T | U64T | StringT | Rgba4T | Vec2T | BoolT | SpriteIdT
    | SpriteCacheT

  /** A field's value tagged with its runtime type. */
  datatype FieldValue =
    | F32(f32: real)
    | F64(f64: real)
    | I32(i32: int)
    | U32(u32: nat)
    | I64(i64: int)
    | U64(u64: nat)
    | Str(str: string)
    | Rgba4(rgba: Color)
    | Vec2(xy: Vector2)
    | Bool(b: bool)
    | SpriteRef(id: SpriteId)
    | SpriteCache(cache: Option<SpriteData>)
  {
    function TypeOf(): FieldType
    {
      match this
      case F32(_) => F32T
      case F64(_) => F64T
      case I32(_) => I32T
      case U32(_) => U32T
      case I64(_) => I64T
      case U64(_) => U64T
      case Str(_) => StringT
      case Rgba4(_) => Rgba4T
      case Vec2(_) => Vec2T
      case Bool(_) => BoolT
      case SpriteRef(_) => SpriteIdT
      case SpriteCache(_) => SpriteCacheT
    }
  }

  /** One line of the listing: `name: type` with an optional `= default` expression. */
  datatype FieldSpec = FieldSpec(name: string, ty: FieldType, default: Option<FieldValue>)

  /** The listing of src/components.rs, kind by kind, field by field. */
  function SchemaOf(k: Kind): seq<FieldSpec>
  {
    match k
    case PosKind => [FieldSpec("x", F32T, None), FieldSpec("y", F32T, None)]
    case VelKind => [FieldSpec("x", F32T, None), FieldSpec("y", F32T, None), FieldSpec("d", F32T, Some(F32(10.0)))]
    case RenderKind => [
      FieldSpec("s_id", SpriteIdT, Some(SpriteRef(SpriteId(0)))),
      FieldSpec("w", F32T, Some(F32(PPU))),
      FieldSpec("h", F32T, Some(F32(PPU))),
      FieldSpec("color", Rgba4T, Some(Rgba4([1.0, 1.0, 1.0, 1.0]))),
      FieldSpec("layer", F32T, Some(F32(0.0))),
      FieldSpec("flip_x", BoolT, Some(Bool(false))),
      FieldSpec("flip_y", BoolT, Some(Bool(false))),
      FieldSpec("cached_sprite", SpriteCacheT, Some(SpriteCache(None)))]
    case CameraAnchorKind => [FieldSpec("zoom", F32T, Some(F32(1.0))), FieldSpec("smoothness", F32T, Some(F32(1.0)))]
    case PlayerKind => [FieldSpec("speed", F32T, Some(F32(50.0)))]
    case ColliderKind => [FieldSpec("w", F32T, Some(F32(PPU))), FieldSpec("h", F32T, Some(F32(PPU))), FieldSpec("is_static", BoolT, Some(Bool(true)))]
  }

  /** `vs` has exactly the fields of kind `k`, each of its declared type. */
  predicate WellTyped(k: Kind, vs: seq<FieldValue>)
  {
    |vs| == |SchemaOf(k)| && forall i :: 0 <= i < |vs| ==> vs[i].TypeOf() == SchemaOf(k)[i].ty
  }

  /** The component's field values, in declaration order. */
  function ValuesOf(c: Component): (vs: seq<FieldValue>)
    ensures |vs| == |SchemaOf(c.KindOf())|
  {
    match c
    case PosComp(p) => [F32(p.x), F32(p.y)]
    case VelComp(v) => [F32(v.x), F32(v.y), F32(v.d)]
    case RenderComp(r) =>
      [SpriteRef(r.sId), F32(r.w), F32(r.h), Rgba4(r.color), F32(r.layer), Bool(r.flipX), Bool(r.flipY),
       SpriteCache(r.cachedSprite)]
    case CameraAnchorComp(a) => [F32(a.zoom), F32(a.smoothness)]
    case PlayerComp(p) => [F32(p.speed)]
    case ColliderComp(c) => [F32(c.w), F32(c.h), Bool(c.isStatic)]
  }

  /** A component's field values have the types its kind declares. */
  lemma ValuesWellTyped(c: Component)
    ensures WellTyped(c.KindOf(), ValuesOf(c))
  {
    var vs, ts := ValuesOf(c), SchemaOf(c.KindOf());
    forall i | 0 <= i < |vs|
      ensures vs[i].TypeOf() == ts[i].ty
    {
      match c
      case PosComp(_) =>
      case VelComp(_) =>
      case RenderComp(_) =>
      case CameraAnchorComp(_) =>
      case PlayerComp(_) =>
      case ColliderComp(_) =>
    }
  }

  /** Emptying the cache changes the cache field and no other field. */
  lemma ValuesWithoutCache(c: Component)
    ensures |ValuesOf(WithoutCache(c))| == |ValuesOf(c)|
    ensures forall j :: 0 <= j < |ValuesOf(c)| ==>
      ValuesOf(WithoutCache(c))[j] == if ValuesOf(c)[j].TypeOf() == SpriteCacheT then SpriteCache(None) else ValuesOf(c)[j]
  {
    if c.RenderComp? {
      var r := c.render;
      assert ValuesOf(WithoutCache(c)) == ValuesOf(c)[7 := SpriteCache(None)];
    }
  }

  /** Rebuilds a component of kind `k` from field values; fails when they are not well typed. */
  function FromFields(k: Kind, vs: seq<FieldValue>): (r: Option<Component>)
    ensures r.Some? ==> r.value.KindOf() == k && ValuesOf(r.value) == vs
  {
    match k
    case PosKind =>
      if |vs| == 2 && vs[0].F32? && vs[1].F32? then Some(PosComp(Pos(vs[0].f32, vs[1].f32))) else None
    case VelKind =>
      if |vs| == 3 && vs[0].F32? && vs[1].F32? && vs[2].F32?
      then Some(VelComp(Vel(vs[0].f32, vs[1].f32, vs[2].f32))) else None
    case RenderKind =>
      if |vs| == 8 && vs[0].SpriteRef? && vs[1].F32? && vs[2].F32? && vs[3].Rgba4? && vs[4].F32?
         && vs[5].Bool? && vs[6].Bool? && vs[7].SpriteCache?
      then Some(RenderComp(Render(vs[0].id, vs[1].f32, vs[2].f32, vs[3].rgba, vs[4].f32, vs[5].b, vs[6].b, vs[7].cache)))
      else None
    case CameraAnchorKind =>
      if |vs| == 2 && vs[0].F32? && vs[1].F32? then Some(CameraAnchorComp(CameraAnchor(vs[0].f32, vs[1].f32))) else None
    case PlayerKind =>
      if |vs| == 1 && vs[0].F32? then Some(PlayerComp(Player(vs[0].f32))) else None
    case ColliderKind =>
      if |vs| == 3 && vs[0].F32? && vs[1].F32? && vs[2].Bool?
      then Some(ColliderComp(Collider(vs[0].f32, vs[1].f32, vs[2].b))) else None
  }

  /** Field values rebuild a component exactly when they are well typed for its kind. */
  lemma RebuildsIffWellTyped(k: Kind, vs: seq<FieldValue>)
    ensures FromFields(k, vs).Some? <==> WellTyped(k, vs)
  {
    if FromFields(k, vs).Some? {
      ValuesWellTyped(FromFields(k, vs).value);
    }
    if WellTyped(k, vs) {
      WellTypedRebuilds(k, vs);
    }
  }

  lemma WellTypedRebuilds(k: Kind, vs: seq<FieldValue>)
    requires WellTyped(k, vs)
    ensures FromFields(k, vs).Some?
  {
    var ts := SchemaOf(k);
    match k
    case PosKind =>
      assert vs[0].TypeOf() == ts[0].ty && vs[1].TypeOf() == ts[1].ty;
    case VelKind =>
      assert vs[0].TypeOf() == ts[0].ty && vs[1].TypeOf() == ts[1].ty && vs[2].TypeOf() == ts[2].ty;
    case RenderKind =>
      assert vs[0].TypeOf() == ts[0].ty && vs[1].TypeOf() == ts[1].ty && vs[2].TypeOf() == ts[2].ty;
      assert vs[3].TypeOf() == ts[3].ty && vs[4].TypeOf() == ts[4].ty && vs[5].TypeOf() == ts[5].ty;
      assert vs[6].TypeOf() == ts[6].ty && vs[7].TypeOf() == ts[7].ty;
    case CameraAnchorKind =>
      assert vs[0].TypeOf() == ts[0].ty && vs[1].TypeOf() == ts[1].ty;
    case PlayerKind =>
      assert vs[0].TypeOf() == ts[0].ty;
    case ColliderKind =>
      assert vs[0].TypeOf() == ts[0].ty && vs[1].TypeOf() == ts[1].ty && vs[2].TypeOf() == ts[2].ty;
  }

  /** Reading a component's fields and writing them back gives the same component. */
  lemma ReflectionRoundTrip(c: Component)
    ensures FromFields(c.KindOf(), ValuesOf(c)) == Some(c)
  {
  }

  // ---------------------------------------------------------------------------
  // Generated defaults
  // ---------------------------------------------------------------------------

  /** `Default::default()` of each field type: zero, empty, false, `SpriteId(0)`, `None`. */
  function ZeroOf(t: FieldType): (v: FieldValue)
    ensures v.TypeOf() == t
  {
    match t
    case F32T => F32(0.0)
    case F64T => F64(0.0)
    case I32T => I32(0)
    case U32T => U32(0)
    case I64T => I64(0)
    case U64T => U64(0)
    case StringT => Str("")
    case Rgba4T => Rgba4([0.0, 0.0, 0.0, 0.0])
    case Vec2T => Vec2([0.0, 0.0])
    case BoolT => Bool(false)
    case SpriteIdT => SpriteRef(SpriteId(0))
    case SpriteCacheT => SpriteCache(None)
  }

  /** `#[derive(Default)]` on `SpriteId` gives the first sprite. */
  lemma SpriteIdDefault()
    ensures ZeroOf(SpriteIdT) == SpriteRef(SpriteId(0))
  {
  }

  /** `@default_val`: the declared expression when there is one, else the type's default. */
  function DefaultValue(f: FieldSpec): FieldValue
  {
    match f.default
    case Some(v) => v
    case None => ZeroOf(f.ty)
  }

  function DefaultValues(k: Kind): seq<FieldValue>
  {
    seq(|SchemaOf(k)|, i requires 0 <= i < |SchemaOf(k)| => DefaultValue(SchemaOf(k)[i]))
  }

  /** Every declared default has its field's type, so each kind's defaults make a component. */
  lemma DefaultsWellTyped(k: Kind)
    ensures WellTyped(k, DefaultValues(k))
  {
  }

  /** The generated `impl Default`: every field set from `@default_val`. */
  function DefaultOf(k: Kind): (c: Component)
    ensures c.KindOf() == k
    ensures ValuesOf(c) == DefaultValues(k)
  {
    DefaultsWellTyped(k);
    RebuildsIffWellTyped(k, DefaultValues(k));
    FromFields(k, DefaultValues(k)).value
  }

  /** The concrete defaults the listing yields for the plain kinds. */
  lemma DefaultsAsDeclared()
    ensures DefaultOf(PosKind) == PosComp(Pos(0.0, 0.0))
    ensures DefaultOf(VelKind) == VelComp(Vel(0.0, 0.0, 10.0))
    ensures DefaultOf(CameraAnchorKind) == CameraAnchorComp(CameraAnchor(1.0, 1.0))
    ensures DefaultOf(PlayerKind) == PlayerComp(Player(50.0))
    ensures DefaultOf(ColliderKind) == ColliderComp(Collider(PPU, PPU, true))
  {
  }

  /** `Render::default()`: sprite 0, one world unit square, opaque white, no flips, no cache. */
  lemma RenderDefault()
    ensures DefaultOf(RenderKind) ==
      RenderComp(Render(SpriteId(0), PPU, PPU, [1.0, 1.0, 1.0, 1.0], 0.0, false, false, None))
  {
  }
}
