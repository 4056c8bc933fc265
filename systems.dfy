/**
 * System dispatch (src/systems.rs). Each registered `GameSystem` names a routine that
 * takes the shared context by mutable reference; `run_all_systems` calls every routine
 * once, in registry order, on the same context. A routine is modelled by its effect:
 * a function from the frame it sees (store and sprite registry) and the time step to
 * the frame it leaves behind.
 */
module Systems {
  import opened Ecs
  import opened Sprites

  /** What a routine can read and change through the context. */
  datatype Frame = Frame(world: WorldState, sprites: SpriteTables)

  /** `GameSystem { name, func }`: the descriptor a `#[system]` routine registers. */
  datatype GameSystem = GameSystem(name: string, func: (Frame, real) -> Frame)

  /** `SysCtx`: the store and the sprite registry, both borrowed mutably, and the time step. */
  class SysCtx {
    const world: World
    const sprites: SpriteManager
    const dt: real

    constructor (world: World, sprites: SpriteManager, dt: real)
      ensures this.world == world && this.sprites == sprites && this.dt == dt
    {
      this.world := world;
      this.sprites := sprites;
      this.dt := dt;
    }

    function Current(): Frame
      reads this, world, sprites
    {
      Frame(world.State(), sprites.State())
    }
  }

  /**
   * A frame a routine may leave behind: the store invariant holds, so the store can still
   * spawn fresh entities (`World.Valid` on the frame's store).
   */
  predicate FrameValid(f: Frame)
  {
    WorldValid(f.world)
  }

  /** The frame after running `registry` in order from `f`: each routine sees its predecessor's result. */
  function Dispatch(registry: seq<GameSystem>, f: Frame, dt: real): Frame
  {
    if |registry| == 0 then f
    else registry[|registry| - 1].func(Dispatch(registry[..|registry| - 1], f, dt), dt)
  }

  /** Running two registries back to back is running their concatenation. */
  lemma {:induction false} DispatchSplit(a: seq<GameSystem>, b: seq<GameSystem>, f: Frame, dt: real)
    ensures Dispatch(a + b, f, dt) == Dispatch(b, Dispatch(a, f, dt), dt)
    decreases |b|
  {
    if |b| == 0 {
      assert a + b == a;
    } else {
      var pre := b[..|b| - 1];
      assert (a + b)[..|a + b| - 1] == a + pre;
      assert (a + b)[|a + b| - 1] == b[|b| - 1];
      DispatchSplit(a, pre, f, dt);
    }
  }

  /** A property every routine keeps holds after the whole dispatch. */
  lemma {:induction false} DispatchPreserves(registry: seq<GameSystem>, inv: Frame -> bool, f: Frame, dt: real)
    requires inv(f)
    requires forall i, g :: 0 <= i < |registry| && inv(g) ==> inv(registry[i].func(g, dt))
    ensures inv(Dispatch(registry, f, dt))
    decreases |registry|
  {
    if |registry| > 0 {
      var pre := registry[..|registry| - 1];
      DispatchPreserves(pre, inv, f, dt);
      assert inv(registry[|registry| - 1].func(Dispatch(pre, f, dt), dt));
    }
  }

  /** Routines that touch only the store leave the sprite registry as it was. */
  lemma {:induction false} WorldOnlyKeepsSprites(registry: seq<GameSystem>, f: Frame, dt: real)
    requires forall i, g :: 0 <= i < |registry| ==> registry[i].func(g, dt).sprites == g.sprites
    ensures Dispatch(registry, f, dt).sprites == f.sprites
    decreases |registry|
  {
    if |registry| > 0 {
      var pre := registry[..|registry| - 1];
      WorldOnlyKeepsSprites(pre, f, dt);
      assert registry[|registry| - 1].func(Dispatch(pre, f, dt), dt).sprites == Dispatch(pre, f, dt).sprites;
    }
  }

  /** `(system.func)(ctx)`: the routine's effect written into the shared store and registry. */
  method Invoke(ctx: SysCtx, system: GameSystem)
    modifies ctx.world, ctx.sprites
    ensures ctx.Current() == system.func(old(ctx.Current()), ctx.dt)
  {
    var f := system.func(ctx.Current(), ctx.dt);
    ctx.world.entities := f.world.entities;
    ctx.world.next := f.world.next;
    ctx.sprites.textures := f.sprites.textures;
    ctx.sprites.sprites := f.sprites.sprites;
    ctx.sprites.animations := f.sprites.animations;
    ctx.sprites.spriteNames := f.sprites.spriteNames;
    ctx.sprites.nameToId := f.sprites.nameToId;
  }

  /**
   * `run_all_systems`: every descriptor of the (fixed) registry invoked once, in order, on
   * the same context; an empty registry leaves the context as it was. Routines, like any
   * user of the store, keep its invariant, so the store can still spawn afterwards.
   */
  method RunAllSystems(ctx: SysCtx, registry: seq<GameSystem>)
    requires ctx.world.Valid()
    requires forall i, g :: 0 <= i < |registry| && FrameValid(g) ==> FrameValid(registry[i].func(g, ctx.dt))
    modifies ctx.world, ctx.sprites
    ensures ctx.world.Valid()
    ensures ctx.Current() == Dispatch(registry, old(ctx.Current()), ctx.dt)
  {
    ghost var start := ctx.Current();
    for i := 0 to |registry|
      invariant ctx.Current() == Dispatch(registry[..i], start, ctx.dt)
    {
      assert registry[..i + 1][..i] == registry[..i];
      Invoke(ctx, registry[i]);
    }
    assert registry[..|registry|] == registry;
    DispatchPreserves(registry, FrameValid, start, ctx.dt);
  }
}
