# Sprite sheets for a small Bevy game: a Dafny model

This project models the sprite layer of a small 2D game client written in
Rust on the Bevy engine:

- `trim_extension`: turns an asset file name into a sheet name by removing the
  first match of the regular expression `\.[^.]+$` (module `RonConfig`,
  `ron_config.dfy`).
- `SpriteSheetResource`: the name-to-sheet registry, with overwrite-on-insert
  and a lookup that never changes it (class `Gfx.SpriteSheetResource`).
- `SpriteMeta`: an entity's wish to display a tile of a named sheet, and its
  default value.
- `load_sprite_sheets`: the startup system. It folds the ordered configuration
  records `(file, tile size, columns, rows)` into a fresh registry. Each record
  requests its texture under `graphics/<file>` and adds a square-tile grid
  layout to the layout store. The pair is stored under the trimmed file name,
  so later duplicates win (method `Gfx.LoadSpriteSheets`).
- `add_sprite_from_sprite_meta`: the per-frame system. It visits every entity
  that has a `SpriteMeta` and a `GlobalTransform` but no `SpriteAdded` marker.
  On a registry hit, the entity gets a sprite built from the sheet's texture and
  layout at tile `meta.index`, plus the marker. On a miss, it gets a warning
  naming the sheet and is otherwise left alone (method
  `Gfx.AddSpriteFromSpriteMeta`).

The collaborators are modelled this way:

- The asset server's `load` is an injected function from asset path to image
  handle.
- The layout asset store is the class `Gfx.LayoutAssets`. Its `Add` appends a
  layout and returns its position as the handle.
- The ECS world is the class `Gfx.World`, a map from entity id to a record
  holding the components this layer reads or attaches.
- The order in which the query visits entities is a parameter that lists every
  entity exactly once.

Bevy's `Commands` are deferred, but the binding pass changes each entity at
most once. Whether an entity is selected and what it receives depend only on
its own `SpriteMeta`, its marker and the registry. The bundle inserted on a hit
does overwrite the entity's transform components, but it leaves a transform in
place, and no other entity's decision reads them. So applying each change
immediately gives the same final modelled components. The model applies them
immediately.

The configuration tuple is `(String, f32, i32, i32)`. Its third field is the
column count and its fourth the row count, both for
`TextureAtlasLayout::from_grid` and in the log line. The model names the fields
`columns` and `rows` in that order.

The registry lemmas (`RegistryKeys`, `RegistryLastWins`, `RegistryEntry`) hold
for any naming function `key`. `LoadSpriteSheets` instantiates them with
`RonConfig.TrimExtension`, and `LoadedSheet` states the result for that
instantiation.

## Model

| member | source | states |
|---|---|---|
| `RonConfig.LastDot` | src/ron_config.rs:38 | finds the position of the last `.`: None exactly when there is no dot; otherwise a dot with no dot after it |
| `RonConfig.TrimExtension` | src/ron_config.rs:37-39 | the result is a prefix of the name; when shorter, the cut part is a match of `\.[^.]+$`; when not shorter, the pattern has no match |
| `RonConfig.MatchStartsAtLastDot` | src/ron_config.rs:38 | any match of `\.[^.]+$` starts at the last dot and ends at the end of the text |
| `RonConfig.TrimIsRegexReplace` | src/ron_config.rs:38 | TrimExtension equals the regex replacement: unchanged when there is no match, otherwise the (unique) match is cut out |
| `RonConfig.NoDotUnchanged` | src/ron_config.rs:38 | a name without a dot is returned unchanged |
| `RonConfig.TrailingDotUnchanged` | src/ron_config.rs:38 | a name ending in a dot has no match and is returned unchanged |
| `RonConfig.CutBeforeLastDot` | src/ron_config.rs:38 | when the last dot has at least one character after it, the result is the name cut just before that dot |
| `RonConfig.RemovedSuffix` | src/ron_config.rs:38 | what is removed is one dot followed by one or more non-dot characters running to the end |
| `RonConfig.LeadingDotOnly` | src/ron_config.rs:38 | a name whose only dot is leading (and has characters after it) trims to the empty string |
| `RonConfig.HeroPng` | src/ron_config.rs:38 | `"hero.png"` trims to `"hero"` |
| `RonConfig.DotPngOnly` | src/ron_config.rs:38 | `".png"` trims to the empty string |
| `RonConfig.OnlyLastExtension` | src/ron_config.rs:38 | `"a.tar.gz"` trims to `"a.tar"`, and trimming again gives `"a"`: only the last extension goes, so trimming is not idempotent |
| `Gfx.SpriteSheetResource.constructor` | src/gfx.rs:23-27 | a new registry is empty: every lookup misses |
| `Gfx.SpriteSheetResource.Insert` | src/gfx.rs:29-31 | afterwards the name maps to the new handle, replacing any earlier one, and every other name looks up as before |
| `Gfx.SpriteSheetResource.Get` | src/gfx.rs:33-35 | a read-only lookup: Some of the stored handle exactly when the name is registered, None on a miss |
| `Gfx.DefaultSpriteMeta` | src/gfx.rs:44-51 | the default SpriteMeta shows tile 0 of the sheet named `"default"` |
| `Gfx.UsizeFromI32` | src/gfx.rs:72-73 | the `i32 as usize` cast on the 32-bit target: the residue of the value modulo 2^32, and the value itself when non-negative |
| `Gfx.LayoutAssets.Add` | src/gfx.rs:80 | adding a layout appends it to the store and returns a handle that resolves to it |
| `Gfx.LoadSpriteSheets` | src/gfx.rs:59-92 | the layout store gains one layout per record, in order, and the new registry is the in-order fold of the records keyed by TrimExtension of the file |
| `Gfx.RegistryKeys` | src/gfx.rs:69-83 | the registry's keys are exactly the names of the configuration's records |
| `Gfx.RegistryLastWins` | src/gfx.rs:78-83 | for the last record with a given name, the registry holds the texture requested under `"graphics/" + file` and that record's layout handle |
| `Gfx.RegistryEntry` | src/gfx.rs:69-83 | every registry entry is the handle pair of the last record carrying its name |
| `Gfx.LoadedSheet` | src/gfx.rs:69-88 | for every loaded name, the texture was requested under `"graphics/" + file` of the last record with that name. Its layout resolves to square tiles of the record's tile size, with the third field as the column count and the fourth as the row count |
| `Gfx.BindHit` | src/gfx.rs:117-139 | a selected entity whose sheet is registered gets a sprite with that sheet's texture and layout at tile `meta.index`, plus the SpriteAdded marker; none of the other modelled components change |
| `Gfx.BindUnchanged` | src/gfx.rs:106-120 | an entity already marked, without a transform or SpriteMeta, or whose sheet is unknown is left unchanged |
| `Gfx.BindAllComplete` | src/gfx.rs:106-146 | after the pass, an entity still selected by the query has an unregistered sheet and is exactly as before |
| `Gfx.BindAllIdempotent` | src/gfx.rs:106-139 | a second pass with no change in between binds nothing new |
| `Gfx.MissingSheetsExact` | src/gfx.rs:142-144 | a sheet name is warned about exactly when a visited, selected entity asks for it and the registry lacks it |
| `Gfx.MissingSheetsStable` | src/gfx.rs:117-144 | a second pass warns about the same sheets, in the same order |
| `Gfx.AddSpriteFromSpriteMeta` | src/gfx.rs:104-146 | the world becomes every entity bound independently of the others, and the warnings are the missing sheet names in visiting order |

## Left out

- Reading and parsing the configuration file (`parse`, `save` in src/ron_config.rs, and the fatal `expect` in src/gfx.rs:64-65) is file I/O and RON deserialisation. The parsed records are an input sequence.
- `asset_server.load` is a foreign asset-store call, modelled as an injected function from path to handle. Asynchronous loading and handle resolution are not modelled.
- The contents of `TextureAtlasLayout::from_grid` beyond its four arguments are not modelled. Padding and offset are always None in the source. The `f32` tile size is kept as its raw bits and never computed with.
- Gfx.UsizeFromI32 models the `i32 as usize` cast for the wasm32 target the crate is built for (src/lib.rs). On a 64-bit target a negative count would wrap modulo 2^64 instead.
- The sprite's size (`SPRITE_SIZE` times the window's scale factor) and its colour are float maths over a window query and presentation details. The model's sprite holds only texture, layout and tile index.
- The `info!` line per loaded sheet is not modelled. The `warn!` line is modelled as the name of the missing sheet appended to a list.
- Gfx.AddSpriteFromSpriteMeta: the query's visiting order is a parameter. Bevy's deferred `Commands` are applied immediately, which gives the same world because each entity is changed at most once per pass.
- `spawn_camera` and `snap_camera_to_focus` (src/gfx.rs:154-187) are Bevy camera construction and float `floor`/`ceil` clamping.
- src/sound.rs holds only an empty-map constructor, and src/lib.rs only the wasm entry point. Neither has behaviour to model.
- The source has no animation playback, tick or completion logic, so none is modelled.
- Gfx.BindHit: the inserted `SpriteSheetBundle` also carries default `Transform`, `GlobalTransform` and visibility components, so a hit resets the entity's transforms to identity. That overwrite is not modelled: `hasTransform` stays true, which is all the query filter reads.
- Gfx.AddSpriteFromSpriteMeta: on a hit, `window.single()` panics unless exactly one primary window exists. That panic is not modelled; the model assumes the window is present.
