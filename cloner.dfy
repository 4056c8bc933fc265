/**
 * `duplicate_entity` (src/macros.rs): every component the source entity carries is
 * cloned into a builder, kind by kind in declaration order, and the builder is spawned
 * as a new entity. A source that is not live yields an entity with no components.
 */
module Cloner {
  import opened Wrappers
  import opened Schema
  import opened Ecs

  /** The `EntityBuilder` loop: add a clone of each present kind; the result equals the source set. */
  method CloneComponents(src: ComponentSet) returns (b: ComponentSet)
    ensures b == src
  {
    KindsListedOnce();
    b := NoComponents;
    var i := 0;
    while i < |Kinds|
      invariant 0 <= i <= |Kinds|
      invariant forall j :: 0 <= j < |Kinds| ==> Get(b, Kinds[j]) == if j < i then Get(src, Kinds[j]) else None
    {
      var got := Get(src, Kinds[i]);
      if got.Some? {
        b := With(b, got.value);
      }
      i := i + 1;
    }
    SetsEqualByKind(b, src);
  }

  /**
   * `duplicate_entity`: a fresh entity carrying a copy of the source's components (none
   * when the source is not live); every existing entity, the source included, is unchanged.
   */
  method DuplicateEntity(w: World, e: Entity) returns (n: Entity)
    requires w.Valid()
    modifies w
    ensures w.Valid()
    ensures n == old(w.next) && n !in old(w.entities)
    ensures w.entities == old(w.entities)[n := if e in old(w.entities) then old(w.entities)[e] else NoComponents]
    ensures w.next == old(w.next) + 1
  {
    var builder := NoComponents;
    if e in w.entities {
      builder := CloneComponents(w.entities[e]);
    }
    n := w.Spawn(builder);
  }
}
