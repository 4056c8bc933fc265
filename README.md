# A verified model of the `en` engine's entity and sprite bookkeeping

This project models, in Dafny, the bookkeeping core of the small Rust game engine `en`, and proves
what that code promises. The core has four parts:

- **The component schema.** `define_all_components!` in `src/macros.rs`, applied to the listing in
  `src/components.rs`, generates six kinds: `Pos`, `Vel`, `Render`, `CameraAnchor`, `Player` and
  `Collider`. It also generates their `Default` impls, the `Scene` type, `save_scene`, `load_scene`,
  `duplicate_entity` and the entity inspector.
- **The entity store.** `hecs::World` is not shown, so a small class stands in for it
  (module `Ecs`). It maps each live entity to one optional value per kind. `spawn` hands out a
  fresh identifier from a counter; `clear` empties the map and keeps the counter.
- **System dispatch** (`src/systems.rs`). A fixed registry of `GameSystem { name, func }`
  descriptors is run once each, in order, against one shared `SysCtx`.
- **The sprite registry** (`src/sprite_manager.rs`). Parallel vectors of sprites and names are
  kept in step with a name-to-index map. `load_aseprite` fills them from parsed Aseprite metadata,
  and `load_all` loads every sheet of the index in sorted order.

Modules, one per concern:

| module | file | models |
|---|---|---|
| `Wrappers` | wrappers.dfy | `Option` |
| `Aseprite` | aseprite.dfy | the parsed sheet metadata of `src/aseprite.rs`, as plain values |
| `StringOrder` | string_order.dfy | `Ord` on `String` and the sort `load_all` applies |
| `Sprites` | sprites.dfy | `SpriteManager` and its loaders, with value-level specifications |
| `Components` | components.dfy | the six component records, `PPU`, `Render::r/g/b/a` |
| `Schema` | schema.dfy | kinds, component sets, field reflection, generated defaults, the skipped cache |
| `Ecs` | world.dfy | the entity store |
| `SceneCodec` | scene.dfy | `Scene`, `save_scene`, `load_scene` and the save/load round trip |
| `Inspector` | inspector.dfy | the inspector's type dispatch and its edit and cache rules, without the UI |
| `Cloner` | cloner.dfy | `duplicate_entity` |
| `Systems` | systems.dfy | `GameSystem`, `SysCtx`, `run_all_systems` |

Design choices:

- **Numbers.** `f32` values are modelled as `real`. Integers are unbounded.
- **Byte format.** MessagePack is a parameter of the model: `Codec(encode, decode)`.
  `#[serde(skip)]` on `cached_sprite` is modelled at that boundary. `Encode` hands the serializer
  the scene with every render cache reset, and `Decode` never yields a cache.
- **`load_scene`** is specified by `Replay`, a function over the flattened pairs.
  - `ReplayShape` and `ReplayCount`: one fresh entity per distinct persisted id.
  - `ReplayCarries`: every pair lands on its id's entity.
  - `SaveLoadRoundTrip`: the store is rebuilt up to relabelling.
  - `LoadScene`, `LoadSection` and `LoadPair` are the imperative loops, proved against `Replay`.
- **`load_all`** is specified by `AllLoaded`, which sorts and then applies `WithSheet` per name.
  The imperative loaders in `SpriteManager` are proved against these functions. The registry
  invariant `Consistent` is proved about the functions and kept by every method.
- **System routines** are modelled by their effect: a function from the frame they see
  (store plus sprite registry) and the time step to the frame they leave.

## Model

| member | source | states |
|---|---|---|
| Components.ChannelsAreColor | src/components.rs:28-33 | `r()`, `g()`, `b()`, `a()` read `color[0]` to `color[3]`, in that order |
| Schema.KindsListedOnce | src/components.rs:3-26 | the listing names every kind, each exactly once and under distinct type names |
| Schema.Get | src/macros.rs:87 | a component fetched by kind has that kind |
| Schema.With | src/macros.rs:77 | inserting a component sets its own kind and leaves every other kind of the set unchanged |
| Schema.WithoutCache | src/components.rs:17-18 | resetting the skipped field keeps the kind, sets a `Render`'s `cached_sprite` to `None`, and leaves every other component as it is |
| Schema.SetsEqualByKind | src/macros.rs:86-90 | two component sets that agree on every kind of the listing are equal |
| Schema.EmptyIffNoKind | src/macros.rs:85-93 | a set is empty exactly when no kind of the listing is present |
| Schema.ValuesOf | src/macros.rs:130-131 | a component has one field value per field its kind declares |
| Schema.ValuesWellTyped | src/components.rs:3-26 | every field value has the type the listing declares for it |
| Schema.ValuesWithoutCache | src/components.rs:17-18 | resetting the cache changes the cache field to `None` and no other field |
| Schema.FromFields | src/macros.rs:130-133 | a component rebuilt from field values has the requested kind and exactly those values |
| Schema.RebuildsIffWellTyped | src/macros.rs:130-133 | field values rebuild a component if and only if they are well typed for the kind |
| Schema.WellTypedRebuilds | src/macros.rs:130-133 | well-typed field values always rebuild a component |
| Schema.ReflectionRoundTrip | src/macros.rs:130-133 | reading a component's fields and writing them back gives the same component |
| Schema.ZeroOf | src/macros.rs:219 | `Default::default()` of a field type is a value of that type |
| Schema.SpriteIdDefault | src/sprite_manager.rs:111-113 | the derived `SpriteId::default()` is `SpriteId(0)` |
| Schema.DefaultsWellTyped | src/macros.rs:23-31 | every declared default has its field's type, so each kind has a default component |
| Schema.DefaultOf | src/macros.rs:23-31 | the generated default has the kind asked for, and each field holds its declared default or, without one, the type's default |
| Schema.DefaultsAsDeclared | src/components.rs:4-25 | `Pos` is (0, 0); `Vel` is (0, 0, 10); `CameraAnchor` is (1, 1); `Player` has speed 50; `Collider` is `PPU` by `PPU` and static |
| Schema.RenderDefault | src/components.rs:8-19 | `Render::default()` has sprite 0, `w = h = PPU`, colour `[1, 1, 1, 1]`, layer 0, no flips and no cache |
| Ecs.World.Spawn | src/macros.rs:76 | `spawn` returns an identifier not live before, maps it to the given components and changes no other entity |
| Ecs.World.Clear | src/macros.rs:65 | `clear` leaves no live entity and keeps the counter, so later identifiers stay fresh |
| Ecs.World.InsertOne | src/macros.rs:77 | `insert_one` on a live entity replaces that kind's component and changes nothing else |
| SceneCodec.StripSection | src/components.rs:17-18 | a section as serialized: the same ids in the same order, each component with its cache reset |
| SceneCodec.StripScene | src/components.rs:17-18 | a scene as serialized carries no render cache, section by section |
| SceneCodec.StripKeepsCacheFree | src/components.rs:17-18 | resetting the caches of a scene that has none leaves it unchanged |
| SceneCodec.StripSceneIdempotent | src/components.rs:17-18 | resetting the caches twice is resetting them once |
| SceneCodec.Encode | src/macros.rs:61 | a scene without render caches reaches the serializer unchanged |
| SceneCodec.EncodeIgnoresCache | src/components.rs:17-18 | a scene and its cache-free copy encode to the same bytes, so the cache never reaches the file |
| SceneCodec.Decode | src/macros.rs:67 | a decoded scene never carries a render cache |
| SceneCodec.SceneOrDefault | src/macros.rs:67-70 | a failed decode falls back to `Scene::default()`; otherwise the decoded scene is used |
| SceneCodec.EncodeDecode | src/macros.rs:61-67 | when the serializer reads back the cache-free scene it was handed, decoding what was encoded gives the scene back with caches reset |
| SceneCodec.FlatOfEmpty | src/macros.rs:43-48 | `Scene::default()` holds no pairs |
| SceneCodec.PidsSnoc | src/macros.rs:75 | the ids of a longer pair list are the ids of the shorter one plus the new pair's id |
| SceneCodec.Step | src/macros.rs:76-77 | one load iteration keeps every mapped id pointing at a live entity |
| SceneCodec.Replay | src/macros.rs:72-79 | replaying pairs into a cleared store keeps every mapped id pointing at a live entity |
| SceneCodec.ReplaySnoc | src/macros.rs:74-79 | replaying one more pair is one more load iteration after the replay of the rest |
| SceneCodec.Range | src/macros.rs:76 | the identifiers spawned from counter `a` up to `b` are exactly those in `[a, b)` |
| SceneCodec.RangeSize | src/macros.rs:76 | the spawned range `[a, b)` holds `b - a` identifiers |
| SceneCodec.StepKeepsShape | src/macros.rs:76 | one iteration spawns an entity only for an id not seen before, and keeps distinct ids on distinct entities |
| SceneCodec.FreshShape | src/macros.rs:76 | an id seen for the first time gets the next fresh entity, distinct from all mapped ones |
| SceneCodec.OldShape | src/macros.rs:76-77 | an id seen before reuses its entity and spawns nothing |
| SceneCodec.ReplayShape | src/macros.rs:72-79 | after a replay, `id_map` covers exactly the ids met and is injective, and the live entities are exactly the fresh ones, one per distinct id |
| SceneCodec.ReplayCount | src/macros.rs:72-79 | after a replay, the store holds as many entities as the pairs have distinct persisted ids |
| SceneCodec.CarriedAbsent | src/macros.rs:75-77 | an id no pair mentions receives no component |
| SceneCodec.CarriedAppend | src/macros.rs:74-79 | what an id accumulates over two runs of pairs is what the second run adds to the first |
| SceneCodec.ReplayCarries | src/macros.rs:74-79 | every pair lands on the entity its id was first mapped to, so that entity ends with exactly the components the id's pairs carry, across all kinds |
| SceneCodec.PidsIffCarried | src/macros.rs:75-77 | an id occurs in the pairs exactly when it ends up carrying some component |
| SceneCodec.Held | src/macros.rs:54 | a component queried by kind has that kind |
| SceneCodec.SectionCarries | src/macros.rs:54-57 | within one saved section an id carries exactly its entity's component of that kind, if the entity has one |
| SceneCodec.FlatCarries | src/macros.rs:52-59 | after the first `i` saved sections, an id carries exactly its entity's components of those kinds |
| SceneCodec.SnapshotCarries | src/macros.rs:51-79 | replaying a saved scene gives each id exactly the components its entity had |
| SceneCodec.ReplaySnapshotRestores | src/macros.rs:51-79 | loading a saved scene maps the entities that had a component one-to-one onto new entities with the same components, and drops entities without components |
| SceneCodec.StripSet | src/components.rs:17-18 | a component set read back from a file is the same set with every cache reset, and it is empty exactly when the original is |
| SceneCodec.StripKeepsSnapshot | src/macros.rs:51-59 | a saved scene with caches reset is the snapshot of the store with caches reset |
| SceneCodec.SaveLoadRoundTrip | src/macros.rs:51-80 | `load_scene(save_scene(world))`, when the serializer reads back the saved scene, rebuilds the store up to relabelling: one entity per original entity that had a component, with the same components and caches reset |
| SceneCodec.CollectKind | src/macros.rs:54-57 | a query collects exactly one pair per live entity carrying the kind, holding the entity's id and its component |
| SceneCodec.CollectScene | src/macros.rs:52-59 | the scene built has one collected section per kind, in declaration order |
| SceneCodec.SaveScene | src/macros.rs:51-62 | `save_scene` returns the encoding of a snapshot of the store and leaves the store unchanged |
| SceneCodec.LoadScene | src/macros.rs:64-80 | `load_scene` clears the store and replays the decoded scene, or the empty scene; only fresh entities are live afterwards, and a failed decode leaves no entities |
| SceneCodec.LoadSection | src/macros.rs:75-78 | the loop over one kind's section extends the replay by that section, sharing `id_map` across kinds |
| SceneCodec.LoadPair | src/macros.rs:76-77 | one pair is exactly one `Step`: look the id up or spawn, then insert |
| Inspector.FirstMatch | src/macros.rs:133-183 | the probe chain picks the first arm accepting the type, and no arm when the type is not listed |
| Inspector.WidgetFor | src/macros.rs:133-183 | a field has an editor exactly when its type is one the chain probes |
| Inspector.ProbesDistinct | src/macros.rs:133-183 | the chain probes each type once |
| Inspector.ProbeIndex | src/macros.rs:133-183 | each probed type is caught by its own arm |
| Inspector.WidgetsAsProbed | src/macros.rs:133-183 | the six numeric types get a drag value; `String`, `[f32; 4]`, `[f32; 2]`, `bool` and `SpriteId` get a text edit, colour edit, X/Y drags, checkbox and sprite combo |
| Inspector.CacheHasNoEditor | src/macros.rs:180-183 | the render cache falls through every arm and gets no editor |
| Inspector.EditField | src/macros.rs:181-203 | an edit keeps the component's kind; an edit the inspector cannot make changes nothing |
| Inspector.EditReplacesField | src/macros.rs:133-179 | an edit that does not switch a `Render`'s sprite stores the value in its field and leaves every other field unchanged |
| Inspector.EditSpriteClearsCache | src/macros.rs:181-203 | picking a different sprite for a `Render` sets the sprite, resets `cached_sprite` and changes nothing else |
| Inspector.EditSameValue | src/macros.rs:192-203 | writing back a field's current value changes nothing, the cache included |
| Inspector.EditIdempotent | src/macros.rs:181-203 | repeating an edit has no further effect |
| Inspector.EditComponent | src/macros.rs:111 | an edit changes only the shown component of the entity, in place; a missing entity or kind changes nothing |
| Cloner.CloneComponents | src/macros.rs:83-91 | the builder ends with a clone of every present kind, so it equals the source's component set |
| Cloner.DuplicateEntity | src/macros.rs:82-94 | the new entity is fresh and carries exactly the source's components; with no live source it carries none; every existing entity is unchanged |
| StringOrder.Leq | src/sprite_manager.rs:99 | a prefix orders before the longer string, and an ordered pair of non-empty strings has ordered first characters |
| StringOrder.LeqIsLexicographic | src/sprite_manager.rs:99 | `Leq` is the lexicographic order of `Ord for String`, both directions: `a <= b` exactly when `a` is a prefix of `b` or is smaller at the first position where they differ |
| StringOrder.LeqTotal | src/sprite_manager.rs:99 | string order is total |
| StringOrder.LeqTransitive | src/sprite_manager.rs:99 | string order is transitive |
| StringOrder.LeqAntisymmetric | src/sprite_manager.rs:99 | strings ordered both ways are equal |
| StringOrder.Insert | src/sprite_manager.rs:99 | inserting into a sorted list keeps it sorted and adds exactly that name |
| StringOrder.Sort | src/sprite_manager.rs:98-99 | `sort()` returns the names in ascending order, as a permutation of the input |
| Sprites.AddSpriteKeepsIndex | src/sprite_manager.rs:25-30 | `add_sprite` keeps sprites and names parallel, with every index pointing at a position holding its name; the new name maps to the old length, where the new sprite sits, and other names keep their ids |
| Sprites.IndexDetermined | src/sprite_manager.rs:25-30 | the name map is determined by the name list: each name maps to its latest position |
| Sprites.AddAllSnoc | src/sprite_manager.rs:25-30 | adding one more sprite after a run of additions is one more `add_sprite` |
| Sprites.AddAllKeepsIndex | src/sprite_manager.rs:25-30 | any run of `add_sprite` calls keeps the registry invariant |
| Sprites.AddAllAppends | src/sprite_manager.rs:25-30 | a run of `add_sprite` calls appends the names and sprites in order and leaves textures and animations alone |
| Sprites.SliceEntriesStep | src/sprite_manager.rs:51-64 | one more slice adds its sprite if it has a key, and nothing otherwise |
| Sprites.KeyedInRange | src/sprite_manager.rs:51-53 | every keyed slice refers to a frame that exists |
| Sprites.SliceEntriesAreKeyedSlices | src/sprite_manager.rs:51-64 | slices give exactly one sprite per keyed slice, in slice order, named `{name}_{slice}`, cut from the first key's bounds offset by its frame |
| Sprites.WholeSheetIsOneSprite | src/sprite_manager.rs:43-49 | without usable slices a sheet gives one sprite, named after the sheet and cut from frame 0 |
| Sprites.WholeSheetSprite | src/sprite_manager.rs:66-71 | the whole-sheet case is a single `add_sprite` of frame 0 |
| Sprites.TagFrames | src/sprite_manager.rs:77-83 | a tag gives `to - from + 1` frames, each frame `from + k` with its duration in seconds, and none when the range is inverted |
| Sprites.TagAnimations | src/sprite_manager.rs:74-89 | one animation per tag, in tag order, on the sheet's texture, each with `to - from + 1` frames |
| Sprites.TagAnimationsFrames | src/sprite_manager.rs:74-89 | animation `i` holds exactly tag `i`'s frames `from..=to`, on the sheet's texture |
| Sprites.SheetKeepsIndex | src/sprite_manager.rs:32-91 | loading a sheet keeps the registry invariant, appends its texture, and keeps the old animations followed by one animation per tag, in tag order |
| Sprites.SortedNamesLoadable | src/sprite_manager.rs:98-102 | sorting the index loses no name, so every sorted name can be loaded |
| Sprites.LoadSheetsKeepsIndex | src/sprite_manager.rs:101-103 | loading sheets in turn keeps the registry invariant and adds one texture per sheet |
| Sprites.SpriteManager.constructor | src/sprite_manager.rs:15-23 | `new()` leaves all five tables empty |
| Sprites.SpriteManager.AddSprite | src/sprite_manager.rs:25-30 | `add_sprite` appends the sprite and name and maps the name to the previous length, keeping the invariant |
| Sprites.SpriteManager.LoadAseprite | src/sprite_manager.rs:32-91 | `load_aseprite` pushes the texture, then the sheet's sprites, then its animations, keeping the invariant |
| Sprites.SpriteManager.AddSheetSprites | src/sprite_manager.rs:43-72 | the sprite part of `load_aseprite`: frame 0 as a whole, or the keyed slices |
| Sprites.SpriteManager.AddSliceSprites | src/sprite_manager.rs:51-64 | the slice loop adds exactly the keyed slices' sprites, in order |
| Sprites.SpriteManager.AddTagAnimations | src/sprite_manager.rs:74-90 | the tag loop appends one animation per tag and changes nothing else |
| Sprites.SpriteManager.LoadAll | src/sprite_manager.rs:93-108 | `load_all` loads every sheet of the index in sorted order; without an index it changes nothing |
| Sprites.SpriteManager.LoadInOrder | src/sprite_manager.rs:101-103 | the loop over the sorted names loads each sheet in turn |
| Sprites.CollectTagFrames | src/sprite_manager.rs:76-83 | the frame loop over `from..=to` builds exactly the tag's frames |
| Systems.DispatchSplit | src/systems.rs:19-23 | running two registries back to back is running their concatenation, so each routine sees what the earlier ones left |
| Systems.DispatchPreserves | src/systems.rs:19-23 | a property every routine keeps holds after the whole dispatch |
| Systems.WorldOnlyKeepsSprites | src/systems.rs:13-23 | routines that change only the store leave the sprite registry unchanged |
| Systems.Invoke | src/systems.rs:21 | one routine's effect is written into the shared store and registry |
| Systems.RunAllSystems | src/systems.rs:19-23 | the context ends as the registry's routines, applied once each and in order, leave it; an empty registry changes nothing; routines that keep the store invariant leave a store that can still spawn |

## Left out

- Floating point: `f32` is `real`, so rounding in the rectangle offsets and in `duration / 1000.0` is not modelled.
- Entity identifiers: `to_bits()` is the model's entity number. The `u64` bit layout, generations and id reuse by the `hecs` allocator are not modelled. The stand-in's counter never reuses an identifier.
- Query iteration order: the model keeps a section's order but states every property about the store order-insensitively.
- The MessagePack format is the `Codec` parameter. The `expect` on a failed serialization is not modelled.
- SceneCodec.SaveLoadRoundTrip: it holds when the serializer reads back the saved scene (`ReadsBack`), as for SceneCodec.EncodeDecode below.
- SceneCodec.EncodeDecode: it holds for a scene the serializer reads back unchanged (`ReadsBack`). With `f32` fields, MessagePack reads back exactly the scenes whose values are representable. Which scenes those are is outside the model, because numbers are `real` here.
- The inspector's UI is not modelled: layout, the "Unknown" label of the sprite combo, the add-component menu (`draw_component_menu`), and removal through the command buffer.
- Inspector.EditField: an edit is one whole new field value. Editing one channel of a colour or one coordinate of a vector is that vector replaced.
- Sprites.SpriteManager.LoadAseprite: it requires `Loadable`. Where the source panics on an out-of-range frame index, the model has a precondition.
- File and texture loading, which is asynchronous I/O, is not modelled. A sheet arrives as a parsed `Asset` supplied by the caller. A missing and an unparsable index are both `None`.
- Sprites.SpriteManager.LoadAll: it requires every indexed sheet to be `Loadable`. An index naming a sheet with an out-of-range frame index, on which `load_aseprite` panics, is excluded. A failed PNG or JSON load cannot be expressed, because sheets arrive through the total `assets` parameter.
- The `inventory` link-time registry is the `registry` sequence parameter. `automod` and the `#[system]` proc macro are not modelled.
- Systems.RunAllSystems: it requires every routine to map a store that satisfies the invariant to another one. A `hecs` routine cannot break the allocator, but the model's routines are arbitrary functions.
- Systems.Invoke: a routine is a function of the frame and `dt`. Input, rendering and other effects outside the store and the sprite registry are not modelled.
- Physics, rendering, the editor, the player system and the main loop are not part of this model.
