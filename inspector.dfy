/**
 * The non-interface part of the entity inspector generated in src/macros.rs: which
 * editor a field gets (a first-match chain over the field's runtime type), what an
 * edit does to the component, and the rule that picking another sprite for a
 * `Render` drops its cached sprite lookup.
 */
module Inspector {
  import opened Wrappers
  import opened Schema
  import opened Ecs

  /** The types the inspector tries, in the order of its `downcast_mut` chain. */
  const ProbeOrder: seq<FieldType> := [F32T, F64T, I32T, U32T, I64T, U64T, StringT, Rgba4T, Vec2T, BoolT, SpriteIdT]

  datatype Widget = DragValue | TextEdit | ColorEdit | XYDrag | Checkbox | SpriteCombo

  /** The position of the first probe in `order` that accepts `t`, if any accepts it. */
  function FirstMatch(order: seq<FieldType>, t: FieldType): (r: Option<nat>)
    ensures r.Some? ==> r.value < |order| && order[r.value] == t
    ensures r.Some? ==> forall j :: 0 <= j < r.value ==> order[j] != t
    ensures r.None? <==> t !in order
  {
    if |order| == 0 then None
    else if order[0] == t then Some(0)
    else
      match FirstMatch(order[1..], t)
      case None => None
      case Some(i) => Some(i + 1)
  }

  /** The editor each arm of the chain draws. */
  function WidgetAt(i: nat): Widget
  {
    if i < 6 then DragValue
    else if i == 6 then TextEdit
    else if i == 7 then ColorEdit
    else if i == 8 then XYDrag
    else if i == 9 then Checkbox
    else SpriteCombo
  }

  /** The editor a field of type `t` gets; a type no arm accepts gets none. */
  function WidgetFor(t: FieldType): (r: Option<Widget>)
    ensures r.Some? <==> t in ProbeOrder
  {
    match FirstMatch(ProbeOrder, t)
    case None => None
    case Some(i) => Some(WidgetAt(i))
  }

  /** The chain probes each type once. */
  lemma ProbesDistinct()
    ensures forall a, b :: 0 <= a < b < |ProbeOrder| ==> ProbeOrder[a] != ProbeOrder[b]
  {
  }

  /** A type the chain lists is caught by its own arm, since no earlier arm accepts it. */
  lemma ProbeIndex(i: nat)
    requires i < |ProbeOrder|
    ensures FirstMatch(ProbeOrder, ProbeOrder[i]) == Some(i)
  {
    ProbesDistinct();
    assert ProbeOrder[i] in ProbeOrder;
  }

  /** Every numeric type gets a drag value; the render cache is the one field without an editor. */
  lemma WidgetsAsProbed()
    ensures forall i :: 0 <= i < 6 ==> WidgetFor(ProbeOrder[i]) == Some(DragValue)
    ensures WidgetFor(StringT) == Some(TextEdit)
    ensures WidgetFor(Rgba4T) == Some(ColorEdit)
    ensures WidgetFor(Vec2T) == Some(XYDrag)
    ensures WidgetFor(BoolT) == Some(Checkbox)
    ensures WidgetFor(SpriteIdT) == Some(SpriteCombo)
  {
    forall i | 0 <= i < 6
      ensures WidgetFor(ProbeOrder[i]) == Some(DragValue)
    {
      ProbeIndex(i);
    }
    ProbeIndex(6);
    ProbeIndex(7);
    ProbeIndex(8);
    ProbeIndex(9);
    ProbeIndex(10);
  }

  /** The render cache is the one field type no arm accepts: it gets no editor. */
  lemma CacheHasNoEditor()
    ensures WidgetFor(SpriteCacheT) == None
  {
    var order := ProbeOrder;
    assert forall j :: 0 <= j < |order| ==> order[j] != SpriteCacheT;
    assert FirstMatch(order, SpriteCacheT).None?;
  }

  /**
   * An edit the inspector can make: field `i` exists and has an editor (its type is one the
   * chain probes, see `WidgetFor`), the new value has
   * the field's type, and a sprite is one the combo box lists (an index of `names`).
   */
  predicate Editable(c: Component, i: nat, v: FieldValue, names: seq<string>)
  {
    var vs := ValuesOf(c);
    && i < |vs|
    && vs[i].TypeOf() in ProbeOrder
    && v.TypeOf() == vs[i].TypeOf()
    && (v.SpriteRef? ==> v.id.index < |names|)
  }

  /** The edit picks another sprite on a `Render`: `sprite_changed` on a component that downcasts to `Render`. */
  predicate ClearsCache(c: Component, i: nat, v: FieldValue, names: seq<string>)
  {
    Editable(c, i, v, names) && c.RenderComp? && v.SpriteRef? && v != ValuesOf(c)[i]
  }

  /**
   * Field `i` of `c` set to `v` through its editor, then the cache rule applied. An edit
   * the inspector cannot make leaves the component as it is.
   */
  function EditField(c: Component, i: nat, v: FieldValue, names: seq<string>): (r: Component)
    ensures r.KindOf() == c.KindOf()
    ensures !Editable(c, i, v, names) ==> r == c
  {
    if Editable(c, i, v, names) then
      var vs := ValuesOf(c)[i := v];
      ValuesWellTyped(c);
      WellTypedRebuilds(c.KindOf(), vs);
      var edited := FromFields(c.KindOf(), vs).value;
      if ClearsCache(c, i, v, names) then WithoutCache(edited) else edited
    else c
  }

  /** An edit stores the new value in its field and leaves every other field as it was. */
  lemma EditReplacesField(c: Component, i: nat, v: FieldValue, names: seq<string>)
    requires Editable(c, i, v, names) && !ClearsCache(c, i, v, names)
    ensures ValuesOf(EditField(c, i, v, names)) == ValuesOf(c)[i := v]
  {
    var vs := ValuesOf(c)[i := v];
    ValuesWellTyped(c);
    WellTypedRebuilds(c.KindOf(), vs);
  }

  /** Picking another sprite for a `Render` sets the sprite, empties the cache and changes nothing else. */
  lemma EditSpriteClearsCache(c: Component, i: nat, v: FieldValue, names: seq<string>)
    requires ClearsCache(c, i, v, names)
    ensures EditField(c, i, v, names) == RenderComp(c.render.(sId := v.id, cachedSprite := None))
  {
    var vs := ValuesOf(c)[i := v];
    ValuesWellTyped(c);
    WellTypedRebuilds(c.KindOf(), vs);
    assert i == 0;
  }

  /** Writing back the value a field already has changes nothing, the cache included. */
  lemma EditSameValue(c: Component, i: nat, names: seq<string>)
    requires i < |ValuesOf(c)|
    ensures EditField(c, i, ValuesOf(c)[i], names) == c
  {
    var vs := ValuesOf(c);
    assert vs[i := vs[i]] == vs;
    ReflectionRoundTrip(c);
  }

  /** Repeating an edit has no further effect. */
  lemma EditIdempotent(c: Component, i: nat, v: FieldValue, names: seq<string>)
    ensures EditField(EditField(c, i, v, names), i, v, names) == EditField(c, i, v, names)
  {
    var r := EditField(c, i, v, names);
    if ClearsCache(c, i, v, names) {
      EditSpriteClearsCache(c, i, v, names);
      EditSameValue(r, i, names);
    } else if Editable(c, i, v, names) {
      EditReplacesField(c, i, v, names);
      EditSameValue(r, i, names);
    }
  }

  /**
   * An edit through the inspector on entity `e`'s component of kind `k`: the component is
   * changed in place; a missing entity or kind is not shown, so nothing changes.
   */
  method EditComponent(w: World, e: Entity, k: Kind, i: nat, v: FieldValue, names: seq<string>)
    modifies w
    ensures w.next == old(w.next)
    ensures e in old(w.entities) && Get(old(w.entities)[e], k).Some? ==>
      w.entities == old(w.entities)[e := With(old(w.entities)[e], EditField(Get(old(w.entities)[e], k).value, i, v, names))]
    ensures !(e in old(w.entities) && Get(old(w.entities)[e], k).Some?) ==> w.entities == old(w.entities)
  {
    if e in w.entities {
      var got := Get(w.entities[e], k);
      if got.Some? {
        w.InsertOne(e, EditField(got.value, i, v, names));
      }
    }
  }
}
