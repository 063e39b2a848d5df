# A verified model of a Bevy tile-world demo

The demo builds a 256 x 256 tile map with random textures in its `startup`
system and spawns a player sprite on top of it. Each frame, `move_player`
turns the W/S/A/D keys into a movement direction, picks the sprite's
animation frame from that direction, and moves the player. This project
models those parts in Dafny and proves what they guarantee.

- `tilemap.dfy` (module `Tilemap`) covers the grid fill of `startup`.
  `Commands` records the tilemap entity and the tile entities that are
  spawned. Entity `e` is the `e`-th
  spawned entity, and it carries its tile components, or none if it was
  spawned empty. `TileStorage` is the `TileStorage` table: a 2-D array from
  grid position to entity. `FillTiles` is the nested `for x` / `for y` loop.
  It fills the storage in place and is proved against `Filled`, which states
  the complete state after the fill. The lemmas prove that the loops visit
  each cell exactly once. They also prove that every cell holds the tile
  made for it, carrying that cell's position and a texture index below 14,
  and that the fill is determined by the random draws.
- `movement.dfy` (module `Movement`) covers `move_player`. `DirectionOf` is
  the reference definition of the direction (up minus down, right minus
  left). `AccumulateDirection` is the source's four step-by-step updates,
  proved equal to it. `FrameIndex` is the animation-frame rule.
  `NormalizeOrZero` and `Step` model the translation update over the reals.
  `Player` is the player's mutable `Transform` translation and
  `TextureAtlas` index.
- `game.dfy` (module `Game`) composes these into `Startup`.

The random generator is a parameter. `draws` is the sequence of values that
`gen_range(0..14)` returns, in call order. The k-th draw becomes the texture
index of the k-th cell visited. Every draw must lie in [0, 14), which is the
contract of `gen_range`.

`normalize_or_zero` divides by a square root, so the model takes the
reciprocal length `inv` of a nonzero direction from its caller. The
precondition `IsInverseLength` pins it down: `inv > 0` and
`inv * inv * |direction|^2 == 1`. Positions are exact reals, not `f32`.

Three behaviours of `src/main.rs` are worth stating:

- Grid generation has no error path. The size is the constant 256 x 256 and
  the range is the literal `0..14`.
- `move_camera` does not clamp its interpolation factor
  `0.93 * delta_seconds()`. A frame longer than about 1.075 s makes the
  camera overshoot the player. The camera is not modelled (see below).
- A missing or duplicated player makes `single_mut` panic. The model has no
  error path for this: `Player.Move` is given the one player object.

## Model

| member | source | states |
|---|---|---|
| Tilemap.VisitOrder | src/main.rs:55-56 | the k-th cell visited by the nested loops (x outer, y inner) lies inside the grid and has index k |
| Tilemap.VisitOrderOfCell | src/main.rs:55-57 | every in-bounds cell (x, y) is visited, at step x * height + y, which is below width * height |
| Tilemap.VisitsEachCellOnce | src/main.rs:55-57 | each cell is visited at exactly one step: the visit order is a bijection between the steps and the cells |
| Tilemap.Commands.SpawnEmpty | src/main.rs:50 | spawning an empty entity appends an entity with no tile components and returns its id |
| Tilemap.Commands.SpawnTile | src/main.rs:58-65 | spawning a tile bundle appends exactly that tile and returns its new entity id |
| Tilemap.TileStorage.Empty | src/main.rs:52 | a new storage of the given size holds no entity at any position |
| Tilemap.TileStorage.Set | src/main.rs:67 | storing an entity at an in-bounds position sets that cell and leaves every other cell unchanged |
| Tilemap.SpawnedTile | src/main.rs:57-62 | the k-th tile built lies inside the grid and its texture index is below 14 |
| Tilemap.FillTiles | src/main.rs:55-69 | after the loops, the k-th new entity is the tile for the k-th visited cell with the k-th draw, every cell stores the entity spawned for it, and earlier entities are untouched |
| Tilemap.FilledCellsHoldOwnTile | src/main.rs:55-69 | after the fill, every cell (x, y) stores exactly one entity, whose tile has position (x, y), belongs to the tilemap and has a texture index in [0, 14) |
| Tilemap.FilledTilesAreStored | src/main.rs:55-69 | every entity spawned by the fill is a tile stored at its own position, so no tile is spawned without being stored |
| Tilemap.FillIsDeterministic | src/main.rs:53-69 | two fills from the same draws spawn the same tiles and store the same entities at every position |
| Movement.DirectionOf | src/main.rs:120-136 | each component is -1, 0 or 1, z is 0, an axis is 0 exactly when both or neither of its keys are held, y is 1 exactly for W without S, x is 1 exactly for D without A, and no keys give the zero vector |
| Movement.AccumulateDirection | src/main.rs:120-136 | the four successive key-driven updates starting from zero produce exactly the reference direction |
| Movement.FrameIndex | src/main.rs:138-142 | the animation index is 0 or 1, and it is 1 exactly when W is held and S is not |
| Movement.NormalizeOrZero | src/main.rs:144 | the zero direction stays zero, and any other direction becomes a unit vector parallel to it, with the same sign on every axis |
| Movement.StepLength | src/main.rs:144 | a frame's movement along a nonzero direction has length PLAYER_SPEED * dt |
| Movement.StepsCompose | src/main.rs:144 | moving for dt1 and then dt2 with the same keys ends at the same place as one move for dt1 + dt2 |
| Movement.Player.Spawn | src/main.rs:97-108 | the player starts with atlas index 0 at translation (0, 0, 1), above the tile layer at z = 0 |
| Movement.Player.Move | src/main.rs:119-144 | the atlas index becomes the frame's index whatever it was before, the translation advances by the frame's step, z is unchanged, and with a zero direction the translation is unchanged |
| Game.Startup | src/main.rs:49-108 | the tilemap entity is spawned empty, all 256 x 256 cells are filled with their own tiles with textures in [0, 14), and the player starts idle at (0, 0, 1) |

## Left out

- App and plugin wiring, window present mode, diagnostics, the PerfUi overlay and the gizmo circle (src/main.rs:8-31, 110, 146): engine configuration and drawing, with no state the simulation reads.
- Asset loading, the texture handles and the sprite-atlas layout (src/main.rs:47, 92-95): calls into Bevy that return opaque handles.
- The tilemap bundle inserted on the tilemap entity (src/main.rs:71-88): tile size, grid size, spacing, map type and `get_tilemap_center_transform`. This is float geometry computed inside a library that is not part of this model. The storage is returned by `Startup` instead of being attached to the entity.
- The camera spawn and `move_camera` (src/main.rs:90, 149-160): floating-point interpolation. The code does not clamp the factor, so no "never overshoots" property is claimed.
- `rand::thread_rng` (src/main.rs:53, 62): replaced by the `draws` sequence. Uniformity and independence of the draws are not modelled.
- ECS queries `single_mut` / `single` (src/main.rs:119): the model passes the one player object directly. The panic on zero or several players is not modelled.
- Movement.NormalizeOrZero: positions are exact reals, not `f32`. The square root is supplied by the caller as a reciprocal length. Rounding and the non-finite cases of `normalize_or_zero` (which cannot arise for these integer directions) are not modelled.
- The player spawn (src/main.rs:97-108): `Commands` records only the tilemap entity and the tile entities. The player is kept as its own `Player` object made by `Player.Spawn`, not as an entity id in `Commands.spawned`.
- Entity ids: Bevy's generational entity allocation is modelled as consecutive spawn indices. The tile's other bundle components (visibility, colour, flip) are left at their defaults and not modelled.
