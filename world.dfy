/**
 * The entity store the engine keeps in a `hecs::World`: each live entity maps to
 * the components it carries, at most one per kind. Entities are numbered by a
 * counter, so a spawned entity is always fresh; `Clear` empties the store and
 * keeps the counter, so identifiers are never handed out twice.
 */
module Ecs {
  import opened Schema

  type Entity = nat

  /** A value snapshot of the store, as the system routines see it. */
  datatype WorldState = WorldState(entities: map<Entity, ComponentSet>, next: nat)

  /** The store invariant on a snapshot: every live entity was allocated before the counter. */
  predicate WorldValid(ws: WorldState)
  {
    forall e :: e in ws.entities ==> e < ws.next
  }

  class World {
    var entities: map<Entity, ComponentSet>
    var next: nat

    /** Every live entity was allocated before the counter. */
    ghost predicate Valid()
      reads this
    {
      WorldValid(State())
    }

    function State(): WorldState
      reads this
    {
      WorldState(entities, next)
    }

    constructor ()
      ensures Valid()
      ensures entities == map[] && next == 0
    {
      entities := map[];
      next := 0;
    }

    /** `world.spawn(bundle)`: a fresh entity carrying `cs`. */
    method Spawn(cs: ComponentSet) returns (e: Entity)
      requires Valid()
      modifies this
      ensures Valid()
      ensures e == old(next) && e !in old(entities)
      ensures entities == old(entities)[e := cs]
      ensures next == old(next) + 1
    {
      e := next;
      entities := entities[e := cs];
      next := next + 1;
    }

    /** `world.clear()`: despawns every entity. */
    method Clear()
      modifies this
      ensures Valid()
      ensures entities == map[] && next == old(next)
    {
      entities := map[];
    }

    /** `world.insert_one(e, c)` on a live entity: `c` replaces any component of its kind. */
    method InsertOne(e: Entity, c: Component)
      requires e in entities
      modifies this
      ensures entities == old(entities)[e := With(old(entities)[e], c)]
      ensures next == old(next)
    {
      entities := entities[e := With(entities[e], c)];
    }
  }
}
