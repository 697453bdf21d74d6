# The Last World: simulation core in Dafny

A model of the simulation inside `src/main.cpp`, a small SDL2 sandbox game. The model covers:

- the tile world;
- the spatial query and the axis-by-axis collision resolver that move the player;
- the per-tick movement integrator with jump, run, gravity and friction;
- the terrain generator, with its random walk of the surface height, ore veins, dirt, grass, plants, decorations and trees;
- world editing: the block picked by number key and snapped to the grid under the mouse, the place action that routes blocks to the world or the background, and the dig pass.

Units. Every length and speed is an integer in decipixels, tenths of a screen pixel:

- one block (`BLOCK_SIZE`, 20 px) is 200;
- the run and friction step (0.3 px) is 3;
- gravity (0.2 px) is 2;
- the speed caps (3 and 5 px) are 30 and 50;
- the jump speed is -50.

Every value the program reaches is a multiple of 0.1 px, so this scale is exact for the real-number arithmetic the code means. Mouse points (`SDL_Point`) stay in whole pixels and are scaled by 10 where they meet a rectangle.

Randomness. `rand()` is an oracle `rng: nat -> nat`: the k-th call answers `rng(k)`. Every generator function threads the index of the next draw, so the order in which draws are consumed is part of the model: 88, then 97/99/115/119 on the surface row, 127/129/131/133 on deep rows, and 141/142 per column. `srand(time(NULL))` becomes the choice of `rng`.

Files:

- `geometry.dfy`: rectangles, points, tiles, the overlap test and `has_intersection`.
- `spatial_query.dfy`: `get_tiles_collider`, as a specification function and as the scanning method.
- `collision.dfy`: `move_rect_on_world`, one sweep method per axis, specified by `PassX`, `PassY` and `Resolved`.
- `integrator.dfy`:
  - the integrator step as a function, with lemmas on friction;
  - the `Player` class, which holds the state that `main` keeps between frames.
- `terrain.dfy`:
  - `generate_world` as draw-by-draw specification functions (`Rows`, `Feature`, `Tree`, `NextHeight`, `Built`);
  - imperative methods that follow the source's loops, including the `i++` inside the surface branch, the `continue` and the tree's `ly`.
- `terrain_layout.dfy`: what the generator builds, stated independently of the draws.
- `editing.dfy`: `get_tile_from_id`, the snapping, the dig pass as written and as intended, and the `World` class holding `world_tilemap` and `world_tilemap_background`.

Behaviour of the code that the model keeps, though a reader might expect otherwise:

- `has_intersection` is a strict point-in-open-rectangle test, and it ignores solidity.
- The generator's surface features are a plant, a tree, and two decorations. There are no houses or platforms.
- The depth light is not clamped. With the formula as written (`1 - 0.8 / (i - y)` with `i < y`), every shaded tile's brightness is above 1 (`Geometry.Brightness`).
- The dirt branch's `i >= y / 2` test always holds for the heights the walk reaches (at least 9). A row between `y / 2` and `y - 4` that is skipped never occurs.
- `get_tile_from_id` for an id outside 1-8, i.e. 0 (the start value of `current_block`) or 9, returns a default-constructed tile. That tile is solid and fully lit, but its rectangle and atlas cell were never set. Placing then pushes it onto the world list. `Editing.PlacedTile` takes those unset fields as parameters.

## Model

| member | source | states |
|---|---|---|
| Geometry.HasIntersection | src/main.cpp:30-34 | the point lies strictly inside the tile on all four sides (overlap with a zero-size rectangle at the point); a tile that contains a point has positive width and height |
| Geometry.Brightness | src/main.cpp:125-139 | the shading as written: a row below the surface (negative offset) gets brightness in (1, 1.8], above full light; a positive offset would give [0.2, 1) |
| Geometry.Overlaps | src/main.cpp:42-43 | the collider test's strict overlap on both axes: rectangles that only share an edge do not overlap |
| SpatialQuery.Colliders | src/main.cpp:36-47 | the hits are no more than the tiles, and each hit is an input tile that is solid and strictly overlaps the rectangle |
| SpatialQuery.CollidersConcat | src/main.cpp:36-47 | the scan keeps input order: querying a concatenation concatenates the answers |
| SpatialQuery.CollidersExactly | src/main.cpp:36-47 | a tile is found iff it is in the input, solid and strictly overlapping on both axes; a tile that only touches an edge is never found |
| SpatialQuery.GetTilesCollider | src/main.cpp:36-47 | the scanning loop returns exactly the specification's hits in scan order, and its members are exactly the solid overlapping input tiles |
| Collision.SweepX | src/main.cpp:51-65 | x pass: shift by to.x; with hits and to.x > 0 the rectangle ends at the last hit's x minus its width, with to.x < 0 at the last hit's right edge, and acc.x is 0; otherwise the plain shift with acc.x kept; y, w, h untouched |
| Collision.SweepY | src/main.cpp:67-82 | y pass, the same on y and h from the rectangle the x pass left |
| Collision.MoveRectOnWorld | src/main.cpp:49-83 | x pass then y pass; w, h and to never change; with no hit after either shift the rectangle moves by exactly `to` and both speeds are kept; to.x == 0 (to.y == 0) never snaps on that axis; after a snap the rectangle is clear of the last hit and touches its edge |
| Integrator.Step | src/main.cpp:324-333 | left beats right for to.x (acc.x - 3, else + 3, else acc.x), taken before friction; gravity adds exactly 2 to acc.y while acc.y <= 50 and nothing above, so acc.y stays at most 52, and to.y is the new acc.y; abs(acc.x) <= 30 and acc.x a multiple of 3 are preserved; with no key held friction takes a grid speed one step towards 0 without crossing it; with a key held the run step stands unless it takes abs(acc.x) past 30, where friction takes 3 back, so holding left (right) saturates at -30 (30) |
| Integrator.FrictionDecays | src/main.cpp:330-333 | n idle ticks from a grid speed a give a - 3n (or a + 3n) until it reaches 0, and 0 from then on |
| Integrator.TenIdleTicksStop | src/main.cpp:330-333 | from the top speed of 3 px per tick, ten idle ticks stop the player at exactly 0 |
| Integrator.Player.constructor | src/main.cpp:216-222 | the player starts at (100, 30) px, 15 x 35 px, at rest, facing right |
| Integrator.Player.Jump | src/main.cpp:286-287 | the space key sets acc.y to -5 px per tick and changes nothing else |
| Integrator.Player.Integrate | src/main.cpp:324-333 | the movement becomes Step of the old one; facing left iff left is held, or neither key is held and it faced left; abs(to.x) <= 33; the size and speed invariant is kept |
| Integrator.Player.MoveOnWorld | src/main.cpp:335 | the player rectangle and movement are resolved against the world's tiles by move_rect_on_world |
| Integrator.Player.Tick | src/main.cpp:286-335 | one frame: jump, then the integrator, then collision; the resolved rectangle and speeds follow from Step of the (jumped) movement; the invariant is kept |
| Terrain.InitialHeight | src/main.cpp:88 | the first surface height is in [10, 34] |
| Terrain.NextHeight | src/main.cpp:141-143 | the walk consumes one or two draws; from a height of at least 9 it stays at least 9 and moves by at most one |
| Terrain.Feature | src/main.cpp:97-122 | at most one feature: nothing, one non-solid plant or decoration tile in the cell above the grass, or a tree; tried in the order plant (draw 1 mod 10), tree (draw 2 mod 30), decoration A (draw 3 mod 15), decoration B (draw 4 mod 15), each taken exactly when its draw is 1 and the earlier ones missed; one draw means a plant, two a tree, three decoration A, four decoration B or nothing; nothing costs all four |
| Terrain.Trunk | src/main.cpp:103-107 | n trunk tiles, one per loop pass |
| Terrain.CanopyRow | src/main.cpp:110-111 | n canopy tiles, one per pass of the inner loop |
| Terrain.Canopy | src/main.cpp:108-113 | h canopy rows of five tiles each |
| Terrain.Tree | src/main.cpp:99-113 | a tree is 30 tiles, starting with its solid base tile in the cell above the grass |
| Terrain.DeepTile | src/main.cpp:125-136 | a deep row's tile is solid, in its cell, shaded with a negative offset; the veins are tried in the order 1/80, 1/50, 1/40, 1/30 with one draw each: the n-th vein is taken exactly when the n-th draw is 1 modulo its divisor and the earlier draws missed, so the draw count names the vein, and stone follows four misses |
| Terrain.DirtTile | src/main.cpp:138-139 | a dirt tile is solid and in its cell; it is fully lit only in row y - 2, directly under the grass, and shaded in rows y - 4 and y - 3 |
| Terrain.Surface | src/main.cpp:94-123 | the surface row is a grass tile in its cell followed by one feature in the cell above, for one to four draws |
| Terrain.Rows | src/main.cpp:91-139 | the row loop from row i: a column with rows left always ends in its surface row and so uses at least one draw |
| Terrain.Built | src/main.cpp:88-144 | the first n columns, left to right: the height never drops below 9 and each column uses at least two draws (the feature and the height walk) |
| Terrain.WalkHeight | src/main.cpp:141-143 | the imperative walk computes NextHeight, draw by draw |
| Terrain.GrowTree | src/main.cpp:101-113 | appends the tree (base, four trunk tiles while i and ly advance, five canopy rows of five) and leaves i five rows higher |
| Terrain.PlaceSurface | src/main.cpp:94-123 | appends the grass tile and the feature, with the draws in the order plant, tree, decoration, decoration |
| Terrain.GenerateColumn | src/main.cpp:91-140 | the row loop appends exactly the column's rows and leaves the draw index where the specification does |
| Terrain.SurfaceStep | src/main.cpp:94-123 | the loop pass over the surface row (with the `continue` and the increment) completes the column |
| Terrain.RowStep | src/main.cpp:124-139 | a loop pass below the surface row (ore or stone, dirt, or nothing) keeps the loop's account of the column |
| Terrain.BuiltNext | src/main.cpp:89-144 | one more pass of the column loop extends the first x columns to x + 1, with the height and draw index that follow |
| Terrain.GenerateWorld | src/main.cpp:85-145 | generate_world only appends: the result is the caller's tiles followed by the generated world |
| TerrainLayout.TrunkShape | src/main.cpp:103-107 | the trunk is one tile per row from its bottom row upwards |
| TerrainLayout.CanopyRowShape | src/main.cpp:110-111 | a canopy row runs from column col + 2 leftwards, one tile per column |
| TerrainLayout.CanopyShape | src/main.cpp:108-113 | the canopy is h rows of five, row-major from the bottom, each row right to left |
| TerrainLayout.TreeShape | src/main.cpp:99-113 | a tree is 30 solid, fully lit, non-grass tiles: base, trunk in the four rows above, canopy over columns col - 2 to col + 2 and rows row + 5 to row + 9 |
| TerrainLayout.RowsHead | src/main.cpp:125-139 | below the surface row, a row adds one base tile and the loop continues one row up |
| TerrainLayout.RowsSurface | src/main.cpp:94-123 | the surface row holds the grass tile, then one feature |
| TerrainLayout.RowsLayout | src/main.cpp:91-139 | from row i, one base tile per row up to the grass, then one feature |
| TerrainLayout.ColumnLayout | src/main.cpp:91-139 | a column of height y >= 8 has exactly y base tiles, one per row 0..y-1, each solid in its cell: ore below y - 4, dirt up to y - 2, grass at y - 1; then at most one feature; at most y + 30 tiles |
| TerrainLayout.RowsDraws | src/main.cpp:125-136 | each deep row costs one to four draws, dirt rows none, the feature one to four |
| TerrainLayout.HeightWalk | src/main.cpp:88-143 | after n columns the height is in [9, 34 + n], starting in [10, 34], and moves by at most one per column |
| TerrainLayout.CellOnGrid | src/main.cpp:96 | a cell in columns -2..101 and rows 0..MaxRow is on the world grid |
| TerrainLayout.ColumnOnGrid | src/main.cpp:91-139 | every tile of a column lies on the grid |
| TerrainLayout.BuiltOnGrid | src/main.cpp:89-144 | every tile of the first n columns lies on the grid |
| TerrainLayout.GeneratedOnGrid | src/main.cpp:85-145 | generate_world only places whole cells within columns -2..101 and rows 0..142 |
| TerrainLayout.CountCell | src/main.cpp:96 | a count of tiles with an atlas cell is at most the length, and zero iff no tile shows it |
| TerrainLayout.CountConcat | src/main.cpp:89-144 | counts add over concatenation |
| TerrainLayout.BaseGrass | src/main.cpp:94-96 | the base tiles of a column hold exactly one grass tile |
| TerrainLayout.ColumnGrass | src/main.cpp:91-139 | each column holds exactly one grass tile |
| TerrainLayout.BuiltGrass | src/main.cpp:89-144 | the first n columns hold exactly n grass tiles |
| TerrainLayout.GeneratedColumns | src/main.cpp:89 | exactly WORLD_WIDTH = 100 columns are generated: 100 grass tiles |
| Editing.GridIndex | src/main.cpp:154-155 | round((p - 10) / 20) as std::round does it: the nearest integer, ties away from zero |
| Editing.GridIndexIsFloor | src/main.cpp:154-155 | the snap is the cell containing the point, floor(p / 20), except on a grid line at or before 0, where it is the cell before; every p >= 10 snaps to its own cell |
| Editing.BlockAtlas | src/main.cpp:150-191 | ids 1-8 and only those have an atlas cell in the switch; each is an 8 x 8 cell on the atlas grid |
| Editing.TileFromId | src/main.cpp:147-194 | ids 1-8 and only those give a block: solid, fully lit, 20 x 20 px on the grid, 8 x 8 atlas cell |
| Editing.TileFromIdInjective | src/main.cpp:147-194 | distinct ids give distinct blocks |
| Editing.PlacedContainsPoint | src/main.cpp:30-34 | a block placed at a point contains that point, so digging there removes it, iff the point is on no grid line |
| Editing.PlacedTile | src/main.cpp:149-194 | the pushed tile is always solid and fully lit; for ids 1-8 it is the block; otherwise it has the unset rectangle and atlas cell |
| Editing.Outside | src/main.cpp:297-306 | digging as intended never adds tiles, and it leaves the list unchanged exactly when it removes nothing |
| Editing.OutsideExactly | src/main.cpp:297-306 | digging as intended keeps exactly the tiles not containing the point |
| Editing.DigAsWritten | src/main.cpp:299-305 | the dig loop as written never adds tiles, leaves the list unchanged when it removes nothing, and removes at most half of the tiles, rounded up, because each erase passes over the next tile |
| Editing.DigKeepsOutside | src/main.cpp:297-306 | digging as written keeps every tile not containing the point, in order |
| Editing.DigOnlyRemoves | src/main.cpp:297-306 | digging as written never adds a tile, and every tile it removes contains the point |
| Editing.DigHalvesRun | src/main.cpp:297-306 | in a run of tiles that all contain the point, only the tiles at odd positions survive: half of them |
| Editing.DigStep | src/main.cpp:299-305 | one pass of the loop body (erase and step past the next tile, or step past) keeps the loop's account of the result |
| Editing.DigSkipsNeighbour | src/main.cpp:297-306 | two copies of a tile under the cursor: one pass leaves one standing, where digging as intended leaves none |
| Editing.World.constructor | src/main.cpp:220 | the world starts as one generated world and an empty background |
| Editing.World.Reset | src/main.cpp:275-280 | the R key clears both lists and generates a fresh world |
| Editing.World.Dig | src/main.cpp:297-306 | the in-place ascending erase loop leaves what DigAsWritten describes |
| Editing.World.DigAll | src/main.cpp:297-306 | the corrected loop leaves exactly the tiles not containing the point, in order |
| Editing.World.Place | src/main.cpp:307-317 | once the cooldown has elapsed, ids 6-8 push their block onto the background and every other id onto the world; before it nothing changes |

## Left out

- SDL plumbing is not modelled: window, renderer, textures, event polling and key or mouse decoding. The model takes the booleans it produces as inputs: `left`, `right`, `jump`, the dig point, the place id and point.
- The camera smoothing, parallax and the scroll offset applied to the mouse are not modelled, because they are float filters used for drawing. Points arrive already scrolled.
- Rendering is not modelled, including the colour modulation by `light` and the block preview drawn at (20, 20).
- `light` is carried as a tag `Shaded(i - y)` or `FullLight` rather than a float. Its value is given by `Geometry.Brightness` over the reals.
- IEEE single precision is not modelled. The model uses exact decipixel arithmetic. In `float`, repeated ±0.3f steps carry rounding error, so landing exactly on 0 is a property of the real-number semantics.
- The place cooldown (`SDL_GetTicks`, lines 309 and 315) is an input flag. The sun animation timer is cosmetic and left out.
- `srand(time(NULL))` is replaced by the choice of the `rng` oracle.
- The quit path through an explicit destructor call is left out.
- `Terrain.Rows`: heights below 8 never occur, and the layout lemmas do not describe them. The function still follows the code for them.
- `Editing.PlacedTile`: the unset fields of a default-constructed tile are taken as parameters. Reading them is undefined in C++.

## Findings

| source | as written | input that shows it | evidently intended | confidence | as-written member | corrected member |
|---|---|---|---|---|---|---|
| src/main.cpp:299-305 | the dig loop erases `world_tilemap[i]` and then still runs `i++`, so the tile that slides into slot `i` is never examined and survives the pass | two identical tiles both containing the mouse point: one pass leaves one of them | every tile containing the point is removed in one pass | high, not executed | Editing.DigSkipsNeighbour | Editing.World.DigAll |
