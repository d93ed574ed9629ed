/**
 The sprite layer: a registry from sheet names to loaded sprite sheets, the
 startup step that fills it from the graphics configuration, and the per-frame
 step that gives every entity carrying a SpriteMeta the sprite it asks for.

 The asset server and the layout asset store are collaborators: image loading
 is an injected function from an asset path to a handle, and the layout store
 is the class LayoutAssets below, whose handles are positions in its list.
 The entity store is the class World: a map from entity id to the components
 this layer reads or attaches.
 */
module Gfx {
  import opened Wrappers
  import RonConfig

  /** Handle of an image requested from the asset server. */
  datatype ImageHandle = ImageHandle(id: nat)

  /** Handle of a grid layout: the position of the layout in the layout store. */
  datatype LayoutHandle = LayoutHandle(index: nat)

  /** A loaded sprite sheet: its texture and its grid layout. */
  datatype SpriteSheetHandle = SpriteSheetHandle(texture: ImageHandle, layout: LayoutHandle)

  /** Looking a sheet up by name; a miss is None. */
  function Lookup(sheets: map<string, SpriteSheetHandle>, name: string): Option<SpriteSheetHandle>
  {
    if name in sheets then Some(sheets[name]) else None
  }

  /** The process-wide table of sprite sheets, keyed by logical sheet name. */
  class SpriteSheetResource {
    var sheets: map<string, SpriteSheetHandle>

    /** A new registry holds no sheet. */
    constructor ()
      ensures sheets == map[]
      ensures forall name :: Get(name) == None
    {
      sheets := map[];
    }

    /** Stores `sprite` under `name`, replacing any sheet stored there before. */
    method Insert(name: string, sprite: SpriteSheetHandle)
      modifies this
      ensures sheets == old(sheets)[name := sprite]
      ensures Get(name) == Some(sprite)
      ensures forall other :: other != name ==> Get(other) == old(Get(other))
    {
      sheets := sheets[name := sprite];
    }

    /** Looks a sheet up; it reads the registry and never changes it. */
    function Get(name: string): (r: Option<SpriteSheetHandle>)
      reads this
      ensures r.Some? <==> name in sheets
      ensures r.Some? ==> r.value == sheets[name]
    {
      Lookup(sheets, name)
    }
  }

  /** What an entity wants to display: a tile of a named sheet. */
  datatype SpriteMeta = SpriteMeta(index: nat, sheetName: string)

  /** The default SpriteMeta: tile 0 of the sheet called "default". */
  function DefaultSpriteMeta(): (m: SpriteMeta)
    ensures m.index == 0 && m.sheetName == "default"
  {
    SpriteMeta(0, "default")
  }

  // ---------------------------------------------------------------------------
  // Loading the registry from the graphics configuration
  // ---------------------------------------------------------------------------

  /** A 32-bit signed integer, as read from the configuration. */
  type I32 = x: int | -0x8000_0000 <= x < 0x8000_0000

  /** An `f32` kept as its raw bits: the tile size is passed on, never computed with. */
  type F32 = bv32

  /** 2^32, the modulus of `usize` on the wasm32 target the game is built for. */
  const UsizeModulus: nat := 0x1_0000_0000

  /**
   One configuration record `(file, tile size, columns, rows)`: the image file
   name, the side of a square tile, and the grid's column and row counts.
   */
  datatype SheetConfig = SheetConfig(file: string, tileSize: F32, columns: I32, rows: I32)

  /** A uniform grid over a sheet: tile width and height, column and row counts. */
  datatype GridLayout = GridLayout(tileWidth: F32, tileHeight: F32, columns: nat, rows: nat)

  /** The cast `i32 as usize` on a 32-bit target: the value modulo 2^32. */
  function UsizeFromI32(x: I32): (n: nat)
    ensures n < UsizeModulus && (n - x) % UsizeModulus == 0
    ensures 0 <= x ==> n == x
  {
    if x < 0 then x + UsizeModulus else x
  }

  /** The layout built for a record. */
  function SheetLayout(r: SheetConfig): GridLayout
  {
    GridLayout(r.tileSize, r.tileSize, UsizeFromI32(r.columns), UsizeFromI32(r.rows))
  }

  /** The layouts added to the store for `config`, in order. */
  function Layouts(config: seq<SheetConfig>): seq<GridLayout>
  {
    seq(|config|, i requires 0 <= i < |config| => SheetLayout(config[i]))
  }

  /** The handles stored for the record at position `at` of the configuration. */
  function SheetHandle(r: SheetConfig, load: string -> ImageHandle, base: nat, at: nat): SpriteSheetHandle
  {
    SpriteSheetHandle(load("graphics/" + r.file), LayoutHandle(base + at))
  }

  /**
   The registry after folding `config` in order into an empty one, when the
   layout store held `base` layouts beforehand; `key` gives the name each
   file is stored under (the loading step uses RonConfig.TrimExtension).
   */
  function Registry(config: seq<SheetConfig>, key: string -> string, load: string -> ImageHandle, base: nat)
    : map<string, SpriteSheetHandle>
  {
    if config == [] then map[]
    else
      var n := |config| - 1;
      Registry(config[..n], key, load, base)[key(config[n].file) := SheetHandle(config[n], load, base, n)]
  }

  /** The names the configuration defines. */
  function Names(config: seq<SheetConfig>, key: string -> string): set<string>
  {
    set r | r in config :: key(r.file)
  }

  /** `i` is the last record of `config` whose file is stored under `name`. */
  predicate LastWithName(config: seq<SheetConfig>, key: string -> string, name: string, i: int)
  {
    && 0 <= i < |config|
    && key(config[i].file) == name
    && forall j :: i < j < |config| ==> key(config[j].file) != name
  }

  /** The registry's key set is exactly the set of names of the records. */
  lemma {:induction false} RegistryKeys(config: seq<SheetConfig>, key: string -> string, load: string -> ImageHandle, base: nat)
    ensures Registry(config, key, load, base).Keys == Names(config, key)
  {
    if config != [] {
      var n := |config| - 1;
      RegistryKeys(config[..n], key, load, base);
      assert config == config[..n] + [config[n]];
      assert Names(config, key) == Names(config[..n], key) + {key(config[n].file)};
    }
  }

  /**
   When several records have the same name, the last of them wins: the
   registry holds its texture, requested under "graphics/" + its file name,
   and the layout it added to the store.
   */
  lemma {:induction false} RegistryLastWins(config: seq<SheetConfig>, key: string -> string, load: string -> ImageHandle, base: nat, i: int)
    requires 0 <= i < |config| && LastWithName(config, key, key(config[i].file), i)
    ensures key(config[i].file) in Registry(config, key, load, base)
    ensures Registry(config, key, load, base)[key(config[i].file)]
         == SpriteSheetHandle(load("graphics/" + config[i].file), LayoutHandle(base + i))
  {
    var n := |config| - 1;
    if i < n {
      assert config[..n][i] == config[i];
      RegistryLastWins(config[..n], key, load, base, i);
    }
  }

  /** Every entry of the registry comes from the last record carrying its name. */
  lemma {:induction false} RegistryEntry(config: seq<SheetConfig>, key: string -> string, load: string -> ImageHandle, base: nat, name: string)
    requires name in Registry(config, key, load, base)
    ensures exists i ::
      && LastWithName(config, key, name, i)
      && Registry(config, key, load, base)[name] == SheetHandle(config[i], load, base, i)
  {
    var n := |config| - 1;
    if key(config[n].file) == name {
      assert LastWithName(config, key, name, n);
    } else {
      RegistryEntry(config[..n], key, load, base, name);
      var i :| LastWithName(config[..n], key, name, i)
                && Registry(config[..n], key, load, base)[name] == SheetHandle(config[..n][i], load, base, i);
      assert config[..n][i] == config[i];
      forall j | i < j < |config| ensures key(config[j].file) != name {
        if j < n {
          assert config[..n][j] == config[j];
        }
      }
      assert LastWithName(config, key, name, i);
    }
  }

  /** The store of grid layouts; a handle is the position of its layout. */
  class LayoutAssets {
    var layouts: seq<GridLayout>

    constructor ()
      ensures layouts == []
    {
      layouts := [];
    }

    /** Stores `layout` and returns a handle that resolves to it. */
    method Add(layout: GridLayout) returns (h: LayoutHandle)
      modifies this
      ensures layouts == old(layouts) + [layout]
      ensures h.index < |layouts| && layouts[h.index] == layout
      ensures h.index == |old(layouts)|
    {
      h := LayoutHandle(|layouts|);
      layouts := layouts + [layout];
    }
  }

  /**
   Builds the registry from the configuration records, in order: each record's
   texture is requested under "graphics/" + its file name, its grid layout is
   added to the store, and the pair is inserted under the file name without its
   extension.
   */
  method LoadSpriteSheets(config: seq<SheetConfig>, load: string -> ImageHandle, layoutAssets: LayoutAssets)
    returns (resource: SpriteSheetResource)
    modifies layoutAssets
    ensures fresh(resource)
    ensures layoutAssets.layouts == old(layoutAssets.layouts) + Layouts(config)
    ensures resource.sheets == Registry(config, RonConfig.TrimExtension, load, |old(layoutAssets.layouts)|)
  {
    ghost var base := |layoutAssets.layouts|;
    resource := new SpriteSheetResource();
    var i := 0;
    while i < |config|
      invariant 0 <= i <= |config|
      invariant layoutAssets.layouts == old(layoutAssets.layouts) + Layouts(config[..i])
      invariant resource.sheets == Registry(config[..i], RonConfig.TrimExtension, load, base)
    {
      var data := config[i];
      var layout := GridLayout(data.tileSize, data.tileSize, UsizeFromI32(data.columns), UsizeFromI32(data.rows));
      var texture := load("graphics/" + data.file);
      var layoutHandle := layoutAssets.Add(layout);
      resource.Insert(RonConfig.TrimExtension(data.file), SpriteSheetHandle(texture, layoutHandle));
      assert config[..i + 1][..i] == config[..i];
      assert Layouts(config[..i + 1]) == Layouts(config[..i]) + [layout];
      i := i + 1;
    }
    assert config[..i] == config;
  }

  /**
   What loading stores for a name: the texture of the last record with that
   name, requested under "graphics/" + its file, and a layout handle that
   resolves in the store to a grid of square tiles of the record's tile size,
   with the record's third field as the column count and its fourth field as
   the row count.
   */
  lemma LoadedSheet(config: seq<SheetConfig>, load: string -> ImageHandle, before: seq<GridLayout>, name: string)
    requires name in Registry(config, RonConfig.TrimExtension, load, |before|)
    ensures var h := Registry(config, RonConfig.TrimExtension, load, |before|)[name];
      var store := before + Layouts(config);
      exists i ::
        && LastWithName(config, RonConfig.TrimExtension, name, i)
        && h.texture == load("graphics/" + config[i].file)
        && h.layout.index < |store|
        && store[h.layout.index] == GridLayout(config[i].tileSize, config[i].tileSize,
                                               UsizeFromI32(config[i].columns), UsizeFromI32(config[i].rows))
  {
    RegistryEntry(config, RonConfig.TrimExtension, load, |before|, name);
    var i :| LastWithName(config, RonConfig.TrimExtension, name, i)
            && Registry(config, RonConfig.TrimExtension, load, |before|)[name] == SheetHandle(config[i], load, |before|, i);
    var store := before + Layouts(config);
    assert store[|before| + i] == Layouts(config)[i];
  }

  // ---------------------------------------------------------------------------
  // Binding sprites to entities
  // ---------------------------------------------------------------------------

  /** An entity id. */
  type Entity = nat

  /** The sprite attached to an entity: texture, layout, and the tile shown. */
  datatype SpriteBinding = SpriteBinding(texture: ImageHandle, layout: LayoutHandle, index: nat)

  /**
   The components of an entity this layer reads or attaches: its SpriteMeta
   (if any), whether it has a global transform, whether it carries the
   SpriteAdded marker, and the sprite bundle attached to it (if any).
   */
  datatype EntityRecord = EntityRecord(
    meta: Option<SpriteMeta>,
    hasTransform: bool,
    spriteAdded: bool,
    sprite: Option<SpriteBinding>)

  /** The entity is selected by the binding query: it has a SpriteMeta and a transform, and no marker. */
  predicate Pending(e: EntityRecord)
  {
    e.meta.Some? && e.hasTransform && !e.spriteAdded
  }

  /** One entity after the binding step. */
  function Bind(e: EntityRecord, sheets: map<string, SpriteSheetHandle>): EntityRecord
  {
    if !Pending(e) then e
    else
      match Lookup(sheets, e.meta.value.sheetName)
      case Some(h) =>
        e.(sprite := Some(SpriteBinding(h.texture, h.layout, e.meta.value.index)), spriteAdded := true)
      case None => e
  }

  /** Every entity after the binding step. */
  function BindAll(entities: map<Entity, EntityRecord>, sheets: map<string, SpriteSheetHandle>): (m: map<Entity, EntityRecord>)
    ensures m.Keys == entities.Keys
  {
    map id | id in entities :: Bind(entities[id], sheets)
  }

  /** The entity asks for a sheet the registry does not hold: the step warns about it. */
  predicate Missing(entities: map<Entity, EntityRecord>, sheets: map<string, SpriteSheetHandle>, id: Entity)
  {
    id in entities && Pending(entities[id]) && entities[id].meta.value.sheetName !in sheets
  }

  /** The warnings of the binding step, as the names of the missing sheets, in visiting order. */
  function MissingSheets(entities: map<Entity, EntityRecord>, sheets: map<string, SpriteSheetHandle>, order: seq<Entity>): seq<string>
  {
    if order == [] then []
    else
      var n := |order| - 1;
      var id := order[n];
      MissingSheets(entities, sheets, order[..n])
        + if Missing(entities, sheets, id) then [entities[id].meta.value.sheetName] else []
  }

  /** A selected entity whose sheet is registered gets that sheet's handles, its own tile index, and the marker. */
  lemma BindHit(e: EntityRecord, sheets: map<string, SpriteSheetHandle>)
    requires Pending(e) && e.meta.value.sheetName in sheets
    ensures var h := sheets[e.meta.value.sheetName];
      Bind(e, sheets) == e.(sprite := Some(SpriteBinding(h.texture, h.layout, e.meta.value.index)), spriteAdded := true)
  {
  }

  /** An entity that is not selected, or whose sheet is unknown, is left as it is. */
  lemma BindUnchanged(e: EntityRecord, sheets: map<string, SpriteSheetHandle>)
    requires !Pending(e) || e.meta.value.sheetName !in sheets
    ensures Bind(e, sheets) == e
  {
  }

  /** After the step no entity with a transform and a registered sheet is still unbound. */
  lemma BindAllComplete(entities: map<Entity, EntityRecord>, sheets: map<string, SpriteSheetHandle>, id: Entity)
    requires id in entities
    ensures var e := BindAll(entities, sheets)[id];
      Pending(e) ==> e.meta.value.sheetName !in sheets && e == entities[id]
  {
  }

  /** Binding twice is binding once: a second pass with no change in between binds nothing new. */
  lemma BindAllIdempotent(entities: map<Entity, EntityRecord>, sheets: map<string, SpriteSheetHandle>)
    ensures BindAll(BindAll(entities, sheets), sheets) == BindAll(entities, sheets)
  {
    var once := BindAll(entities, sheets);
    forall id | id in once ensures Bind(once[id], sheets) == once[id] {
      BindAllComplete(entities, sheets, id);
    }
  }

  /** A sheet name is warned about exactly when some visited entity asks for it and it is missing. */
  lemma {:induction false} MissingSheetsExact(entities: map<Entity, EntityRecord>, sheets: map<string, SpriteSheetHandle>, order: seq<Entity>, name: string)
    ensures name in MissingSheets(entities, sheets, order)
        <==> exists k :: 0 <= k < |order| && Missing(entities, sheets, order[k]) && entities[order[k]].meta.value.sheetName == name
  {
    if order != [] {
      var n := |order| - 1;
      MissingSheetsExact(entities, sheets, order[..n], name);
      if exists k :: 0 <= k < n && Missing(entities, sheets, order[k]) && entities[order[k]].meta.value.sheetName == name {
        var k :| 0 <= k < n && Missing(entities, sheets, order[k]) && entities[order[k]].meta.value.sheetName == name;
        assert order[..n][k] == order[k];
      }
      if exists k :: 0 <= k < |order| && Missing(entities, sheets, order[k]) && entities[order[k]].meta.value.sheetName == name {
        var k :| 0 <= k < |order| && Missing(entities, sheets, order[k]) && entities[order[k]].meta.value.sheetName == name;
        if k < n {
          assert order[..n][k] == order[k];
        }
      }
    }
  }

  /** A second pass warns about the same sheets, in the same order, as the first. */
  lemma {:induction false} MissingSheetsStable(entities: map<Entity, EntityRecord>, sheets: map<string, SpriteSheetHandle>, order: seq<Entity>)
    ensures MissingSheets(BindAll(entities, sheets), sheets, order) == MissingSheets(entities, sheets, order)
  {
    if order != [] {
      var n := |order| - 1;
      MissingSheetsStable(entities, sheets, order[..n]);
      var id := order[n];
      if id in entities {
        BindAllComplete(entities, sheets, id);
      }
    }
  }

  /** The entity store. */
  class World {
    var entities: map<Entity, EntityRecord>

    constructor (entities: map<Entity, EntityRecord>)
      ensures this.entities == entities
    {
      this.entities := entities;
    }
  }

  /**
   The binding step: visits the entities in the query's order `order`, which
   lists every entity of the world once; each selected entity whose sheet is in the
   registry gets its sprite and the SpriteAdded marker, and each selected entity
   whose sheet is not gets a warning naming that sheet and is left unchanged.
   */
  method AddSpriteFromSpriteMeta(world: World, resource: SpriteSheetResource, order: seq<Entity>)
    returns (warnings: seq<string>)
    requires forall id :: id in world.entities ==> id in order
    requires forall i, j :: 0 <= i < j < |order| ==> order[i] != order[j]
    modifies world
    ensures world.entities == BindAll(old(world.entities), resource.sheets)
    ensures warnings == MissingSheets(old(world.entities), resource.sheets, order)
  {
    ghost var before := world.entities;
    ghost var sheets := resource.sheets;
    warnings := [];
    var i := 0;
    while i < |order|
      invariant 0 <= i <= |order|
      invariant world.entities.Keys == before.Keys
      invariant forall id :: id in world.entities ==>
        world.entities[id] == if id in order[..i] then Bind(before[id], sheets) else before[id]
      invariant warnings == MissingSheets(before, sheets, order[..i])
    {
      var id := order[i];
      assert order[..i + 1][..i] == order[..i];
      if id in world.entities {
        var e := world.entities[id];
        if e.meta.Some? && e.hasTransform && !e.spriteAdded {
          var handle := resource.Get(e.meta.value.sheetName);
          match handle
          case Some(h) =>
            world.entities := world.entities[id := e.(sprite := Some(SpriteBinding(h.texture, h.layout, e.meta.value.index)), spriteAdded := true)];
          case None =>
            warnings := warnings + [e.meta.value.sheetName];
        }
        if id in order[..i] {
          BindAllComplete(before, sheets, id);
        }
      }
      i := i + 1;
    }
    assert order[..i] == order;
  }
}
