// Terrain generator (generate_world): columns of tiles built bottom-up from a
// random walk of the surface height, with ore veins underground and at most
// one surface feature (plant, tree or decoration) per column.
//
// The C library generator is replaced by an explicit oracle: the k-th call to
// rand() answers rng(k), and every function below threads the index of the
// next draw, so the order in which draws are consumed is part of the model.
module Terrain {
  import opened Geometry

  /** WORLD_WIDTH: number of columns generated. */
  const WorldWidth: int := 100
  /** WORLD_HEIGHT: rows between the top margin and row 0. */
  const WorldHeight: int := 25
  /** generate_world's default margin_top, 500 - WORLD_HEIGHT * 20 pixels, i.e. 0. */
  const DefaultMarginTop: int := 0
  /** The highest row any tile can reach: surface at most 34 + 99 after 99 columns,
      plus the ten rows a tree stands above it. */
  const MaxRow: int := 34 + (WorldWidth - 1) + 9

  /** The sequence of rand() results. */
  type Rng = nat -> nat

  // Atlas cells used by the generator.
  const GrassCell := AtlasRect(8, 0, 8, 8)
  const DirtCell := AtlasRect(8, 8, 8, 8)
  const StoneCell := AtlasRect(48, 16, 8, 8)
  const Vein1Cell := AtlasRect(48, 24, 8, 8)
  const Vein2Cell := AtlasRect(64, 0, 8, 8)
  const Vein3Cell := AtlasRect(64, 8, 8, 8)
  const Vein4Cell := AtlasRect(64, 16, 8, 8)
  const PlantCell := AtlasRect(40, 16, 8, 8)
  const TreeBaseCell := AtlasRect(24, 32, 8, 8)
  const TrunkCell := AtlasRect(24, 24, 8, 8)
  const CanopyCell := AtlasRect(8, 40, 8, 8)
  const DecorACell := AtlasRect(16, 40, 8, 8)
  const DecorBCell := AtlasRect(16, 32, 8, 8)

  /** The grid cell of column `col` and row `row`; row 0 is the bottom row, rows grow upwards. */
  function Cell(col: int, row: int, marginTop: int): Rect
  {
    Rect(Block * col, marginTop + Block * WorldHeight - Block * row, Block, Block)
  }

  /** The depth shading 1 - 0.8 / (i - y) of row `i` below surface height `y`. */
  function Shade(i: int, y: int): Light
  {
    Shaded(i - y)
  }

  /** Solid, fully lit tile in a cell: the default of the Tile record. */
  function SolidTile(col: int, row: int, marginTop: int, cell: AtlasRect): Tile
  {
    Tile(Cell(col, row, marginTop), cell, true, FullLight)
  }

  /** Non-solid, fully lit tile in a cell. */
  function Decor(col: int, row: int, marginTop: int, cell: AtlasRect): Tile
  {
    Tile(Cell(col, row, marginTop), cell, false, FullLight)
  }

  // ---------------------------------------------------------------------------
  // Specification of the generator, draw by draw.

  /** A row below the dirt band: a vein with tiered odds (1/80, 1/50, 1/40, 1/30 tried in
      that order, one draw each) or else stone. Returns the tile and the next draw index. */
  function DeepTile(col: int, i: int, y: int, marginTop: int, rng: Rng, k: nat): (r: (Tile, nat))
    requires i < y
    ensures r.0.rect == Cell(col, i, marginTop) && r.0.solid && r.0.light == Shaded(i - y) && i - y < 0
    // One draw per vein tried, in the order 1, 2, 3, 4; stone after the fourth miss.
    ensures k + 1 <= r.1 <= k + 4
    ensures r.1 == k + 1 <==> rng(k) % 80 == 1
    ensures rng(k) % 80 != 1 ==> (r.1 == k + 2 <==> rng(k + 1) % 50 == 1)
    ensures rng(k) % 80 != 1 && rng(k + 1) % 50 != 1 ==> (r.1 == k + 3 <==> rng(k + 2) % 40 == 1)
    ensures r.1 == k + 1 ==> r.0.atlas == Vein1Cell
    ensures r.1 == k + 2 ==> r.0.atlas == Vein2Cell
    ensures r.1 == k + 3 ==> r.0.atlas == Vein3Cell
    ensures r.1 == k + 4 ==> (r.0.atlas == Vein4Cell <==> rng(k + 3) % 30 == 1)
    ensures r.1 == k + 4 && r.0.atlas != Vein4Cell ==> r.0.atlas == StoneCell
  {
    var cell :=
      if rng(k) % 80 == 1 then Vein1Cell
      else if rng(k + 1) % 50 == 1 then Vein2Cell
      else if rng(k + 2) % 40 == 1 then Vein3Cell
      else if rng(k + 3) % 30 == 1 then Vein4Cell
      else StoneCell;
    var used :=
      if rng(k) % 80 == 1 then 1
      else if rng(k + 1) % 50 == 1 then 2
      else if rng(k + 2) % 40 == 1 then 3
      else 4;
    (Tile(Cell(col, i, marginTop), cell, true, Shade(i, y)), k + used)
  }

  /** A dirt tile; shaded like deep rows below row y - 2, fully lit in row y - 2. */
  function DirtTile(col: int, i: int, y: int, marginTop: int): (t: Tile)
    requires i < y
    ensures t.rect == Cell(col, i, marginTop) && t.atlas == DirtCell && t.solid
    // Of the dirt rows y - 4 to y - 2, only row y - 2, directly under the grass, is fully lit;
    // rows y - 4 and y - 3 are shaded.
    ensures t.light == FullLight <==> i >= y - 2
  {
    Tile(Cell(col, i, marginTop), DirtCell, true, if i < y - 2 then Shade(i, y) else FullLight)
  }

  /** `n` trunk tiles from `row` upwards, in the order they are appended. */
  function Trunk(col: int, row: int, marginTop: int, n: nat): (r: seq<Tile>)
    ensures |r| == n
  {
    if n == 0 then [] else Trunk(col, row, marginTop, n - 1) + [SolidTile(col, row + n - 1, marginTop, TrunkCell)]
  }

  /** The first `n` canopy tiles of one canopy row: columns col + 2 down to col + 3 - n. */
  function CanopyRow(col: int, row: int, marginTop: int, n: nat): (r: seq<Tile>)
    ensures |r| == n
  {
    if n == 0 then []
    else CanopyRow(col, row, marginTop, n - 1) + [SolidTile(col + 2 - (n - 1), row, marginTop, CanopyCell)]
  }

  /** `h` full canopy rows from `row` upwards. */
  function Canopy(col: int, row: int, marginTop: int, h: nat): (r: seq<Tile>)
    ensures |r| == 5 * h
  {
    if h == 0 then [] else Canopy(col, row, marginTop, h - 1) + CanopyRow(col, row + h - 1, marginTop, 5)
  }

  /** A tree standing in row `row`: a base tile, four trunk tiles above it, and a
      five-by-five canopy above the trunk. */
  function Tree(col: int, row: int, marginTop: int): (r: seq<Tile>)
    ensures |r| == 30 && r[0] == SolidTile(col, row, marginTop, TreeBaseCell)
  {
    [SolidTile(col, row, marginTop, TreeBaseCell)] + Trunk(col, row + 1, marginTop, 4) + Canopy(col, row + 5, marginTop, 5)
  }

  /** At most one surface feature in row `row`: nothing, a single non-solid plant or
      decoration tile in the cell, or a tree. */
  predicate IsFeature(f: seq<Tile>, col: int, row: int, marginTop: int)
  {
    f == [] || f == Tree(col, row, marginTop) ||
    (|f| == 1 && f[0].rect == Cell(col, row, marginTop) && !f[0].solid && f[0].light == FullLight &&
     f[0].atlas in {PlantCell, DecorACell, DecorBCell})
  }

  /** The surface feature placed in row `row` above the grass: plant (1/10), tree (1/30),
      decoration A (1/15), decoration B (1/15), tried in that order, one draw each. */
  function Feature(col: int, row: int, marginTop: int, rng: Rng, k: nat): (r: (seq<Tile>, nat))
    ensures IsFeature(r.0, col, row, marginTop)
    // One draw per option tried: a plant costs one, a tree two, nothing all four.
    ensures k + 1 <= r.1 <= k + 4
    ensures r.0 == [] ==> r.1 == k + 4
    // Tried in the order plant, tree, decoration A, decoration B.
    ensures r.1 == k + 1 <==> rng(k) % 10 == 1
    ensures rng(k) % 10 != 1 ==> (r.1 == k + 2 <==> rng(k + 1) % 30 == 1)
    ensures rng(k) % 10 != 1 && rng(k + 1) % 30 != 1 ==> (r.1 == k + 3 <==> rng(k + 2) % 15 == 1)
    ensures r.1 == k + 4 ==> (r.0 != [] <==> rng(k + 3) % 15 == 1)
    ensures r.1 == k + 1 ==> r.0 == [Decor(col, row, marginTop, PlantCell)]
    ensures r.1 == k + 2 ==> r.0 == Tree(col, row, marginTop)
    ensures r.1 == k + 3 ==> r.0 == [Decor(col, row, marginTop, DecorACell)]
    ensures r.1 == k + 4 && r.0 != [] ==> r.0 == [Decor(col, row, marginTop, DecorBCell)]
  {
    if rng(k) % 10 == 1 then ([Decor(col, row, marginTop, PlantCell)], k + 1)
    else if rng(k + 1) % 30 == 1 then (Tree(col, row, marginTop), k + 2)
    else if rng(k + 2) % 15 == 1 then ([Decor(col, row, marginTop, DecorACell)], k + 3)
    else if rng(k + 3) % 15 == 1 then ([Decor(col, row, marginTop, DecorBCell)], k + 4)
    else ([], k + 4)
  }

  /** The surface row `i`: a grass tile, then the feature above it. */
  function Surface(col: int, i: int, marginTop: int, rng: Rng, k: nat): (r: (seq<Tile>, nat))
    ensures |r.0| >= 1 && r.0[0] == SolidTile(col, i, marginTop, GrassCell)
    ensures IsFeature(r.0[1..], col, i + 1, marginTop) && k + 1 <= r.1 <= k + 4
  {
    var f := Feature(col, i + 1, marginTop, rng, k);
    ([SolidTile(col, i, marginTop, GrassCell)] + f.0, f.1)
  }

  /** The tiles the row loop appends from row `i` of a column of height `y`. */
  function Rows(col: int, i: int, y: int, marginTop: int, rng: Rng, k: nat): (r: (seq<Tile>, nat))
    // A non-empty column always ends in its surface row, so it uses at least one draw.
    ensures i < y ==> k + 1 <= r.1
    decreases y - i
  {
    if i >= y then ([], k)
    else if i == y - 1 then Surface(col, i, marginTop, rng, k)
    else if i < y - 4 then
      var deep := DeepTile(col, i, y, marginTop, rng, k);
      var rest := Rows(col, i + 1, y, marginTop, rng, deep.1);
      ([deep.0] + rest.0, rest.1)
    else if i >= y / 2 then
      var rest := Rows(col, i + 1, y, marginTop, rng, k);
      ([DirtTile(col, i, y, marginTop)] + rest.0, rest.1)
    else Rows(col, i + 1, y, marginTop, rng, k)
  }

  /** The first surface height, rand() % WORLD_HEIGHT + 10. */
  function InitialHeight(rng: Rng): (y: int)
    ensures 10 <= y <= 34
  {
    rng(0) % WorldHeight + 10
  }

  /** The end-of-column walk: with one draw, stay (1/3) or else move by one, up or down
      on a second draw; then a height of 8 or less is bumped up by one. */
  function NextHeight(y: int, rng: Rng, k: nat): (r: (int, nat))
    ensures k + 1 <= r.1 <= k + 2
    ensures y >= 9 ==> 9 <= r.0 && y - 1 <= r.0 <= y + 1
  {
    var moved :=
      if rng(k) % 3 != 1 then (if rng(k + 1) % 2 == 1 then y + 1 else y - 1, k + 2)
      else (y, k + 1);
    (if moved.0 <= 8 then moved.0 + 1 else moved.0, moved.1)
  }

  /** The first `n` columns, built left to right from the initial height (draw 0):
      their tiles, then the surface height and the draw index the next column starts from. */
  function Built(n: nat, marginTop: int, rng: Rng): (r: (seq<Tile>, int, nat))
    // The height never drops below 9, and every column uses at least two draws: its
    // surface feature and the height walk.
    ensures r.1 >= 9 && r.2 >= 2 * n + 1
  {
    if n == 0 then ([], InitialHeight(rng), 1)
    else
      var prev := Built(n - 1, marginTop, rng);
      var column := Rows(n - 1, 0, prev.1, marginTop, rng, prev.2);
      var walk := NextHeight(prev.1, rng, column.1);
      (prev.0 + column.0, walk.0, walk.1)
  }

  /** Everything one run of generate_world appends. */
  function Generated(marginTop: int, rng: Rng): seq<Tile>
  {
    Built(WorldWidth, marginTop, rng).0
  }

  // ---------------------------------------------------------------------------
  // generate_world, loop by loop.

  /** generate_world: appends to the caller's tiles and never touches what was there. */
  method GenerateWorld(tiles: seq<Tile>, marginTop: int, rng: Rng) returns (out: seq<Tile>)
    ensures out == tiles + Generated(marginTop, rng)
  {
    out := tiles;
    var k: nat := 0;
    var y := rng(k) % WorldHeight + 10;
    k := k + 1;
    var x := 0;
    assert tiles + [] == tiles;
    while x < WorldWidth
      invariant 0 <= x <= WorldWidth
      invariant out == tiles + Built(x, marginTop, rng).0
      invariant y == Built(x, marginTop, rng).1 && k == Built(x, marginTop, rng).2
      decreases WorldWidth - x
    {
      ghost var before := out;
      out, k := GenerateColumn(out, x, y, marginTop, rng, k);
      y, k := WalkHeight(y, rng, k);
      BuiltNext(tiles, x, marginTop, rng, before, out, y, k);
      x := x + 1;
    }
  }

  /** The height walk after a column: rand() % 3 != 1 moves y by rand() % 2 == 1 ? +1 : -1,
      then a height of 8 or less is bumped up. */
  method WalkHeight(y0: int, rng: Rng, k0: nat) returns (y: int, k: nat)
    ensures (y, k) == NextHeight(y0, rng, k0)
  {
    y, k := y0, k0;
    var d := rng(k);
    k := k + 1;
    if d % 3 != 1 {
      d := rng(k);
      k := k + 1;
      y := y + (if d % 2 == 1 then 1 else -1);
    }
    if y <= 8 {
      y := y + 1;
    }
  }

  /** The loop state after column `x`: one more column built, from where `Built(x)` left off. */
  lemma BuiltNext(tiles: seq<Tile>, x: nat, marginTop: int, rng: Rng,
                  before: seq<Tile>, after: seq<Tile>, y: int, k: nat)
    requires before == tiles + Built(x, marginTop, rng).0
    requires var prev := Built(x, marginTop, rng);
             after == before + Rows(x, 0, prev.1, marginTop, rng, prev.2).0 &&
             (y, k) == NextHeight(prev.1, rng, Rows(x, 0, prev.1, marginTop, rng, prev.2).1)
    ensures after == tiles + Built(x + 1, marginTop, rng).0
    ensures y == Built(x + 1, marginTop, rng).1 && k == Built(x + 1, marginTop, rng).2
  {
    var prev := Built(x, marginTop, rng);
    var column := Rows(x, 0, prev.1, marginTop, rng, prev.2);
    var walk := NextHeight(prev.1, rng, column.1);
    assert Built(x + 1, marginTop, rng) == (prev.0 + column.0, walk.0, walk.1);
    assert after == (tiles + prev.0) + column.0 == tiles + (prev.0 + column.0);
  }

  /** The row loop of one column: rows 0 to y - 1 bottom-up; the surface row ends the loop. */
  method GenerateColumn(tiles: seq<Tile>, x: int, y: int, marginTop: int, rng: Rng, k0: nat)
    returns (out: seq<Tile>, k: nat)
    ensures out == tiles + Rows(x, 0, y, marginTop, rng, k0).0
    ensures k == Rows(x, 0, y, marginTop, rng, k0).1
  {
    ghost var column := Rows(x, 0, y, marginTop, rng, k0);
    out, k := tiles, k0;
    var i := 0;
    while i < y
      invariant 0 <= i
      invariant out + Rows(x, i, y, marginTop, rng, k).0 == tiles + column.0
      invariant Rows(x, i, y, marginTop, rng, k).1 == column.1
      decreases y - i
    {
      ghost var out0, k1 := out, k;
      if i == y - 1 {
        out, i, k := PlaceSurface(out, x, i, marginTop, rng, k);
        // `continue` still runs the loop's increment.
        i := i + 1;
        SurfaceStep(tiles + column.0, column.1, x, y, marginTop, rng, out0, k1, out, k, i);
      } else {
        if i < y - 4 {
          var deep := DeepTile(x, i, y, marginTop, rng, k);
          out := out + [deep.0];
          k := deep.1;
        } else if i >= y / 2 {
          out := out + [DirtTile(x, i, y, marginTop)];
        }
        RowStep(tiles + column.0, column.1, x, i, y, marginTop, rng, out0, k1, out, k);
        i := i + 1;
      }
    }
    assert out == out + Rows(x, i, y, marginTop, rng, k).0;
  }

  /** The pass of the row loop over the surface row completes the column `target`, which
      ends at draw `kEnd`. */
  lemma SurfaceStep(target: seq<Tile>, kEnd: nat, x: int, y: int, marginTop: int, rng: Rng,
                    out: seq<Tile>, k: nat, out': seq<Tile>, k': nat, i: int)
    requires 1 <= y <= i
    requires out + Rows(x, y - 1, y, marginTop, rng, k).0 == target && Rows(x, y - 1, y, marginTop, rng, k).1 == kEnd
    requires out' == out + Surface(x, y - 1, marginTop, rng, k).0 && k' == Surface(x, y - 1, marginTop, rng, k).1
    ensures out' + Rows(x, i, y, marginTop, rng, k').0 == target && Rows(x, i, y, marginTop, rng, k').1 == kEnd
  {
    assert Rows(x, y - 1, y, marginTop, rng, k) == Surface(x, y - 1, marginTop, rng, k);
    assert Rows(x, i, y, marginTop, rng, k') == ([], k');
    assert out' + [] == out';
  }

  /** One pass of the row loop below the surface row keeps the loop's account of the
      column `target`, which ends at draw `kEnd`. */
  lemma RowStep(target: seq<Tile>, kEnd: nat, x: int, i: int, y: int, marginTop: int, rng: Rng,
                out: seq<Tile>, k: nat, out': seq<Tile>, k': nat)
    requires 0 <= i < y - 1
    requires out + Rows(x, i, y, marginTop, rng, k).0 == target && Rows(x, i, y, marginTop, rng, k).1 == kEnd
    requires (out', k') ==
               if i < y - 4 then (out + [DeepTile(x, i, y, marginTop, rng, k).0], DeepTile(x, i, y, marginTop, rng, k).1)
               else if i >= y / 2 then (out + [DirtTile(x, i, y, marginTop)], k)
               else (out, k)
    ensures out' + Rows(x, i + 1, y, marginTop, rng, k').0 == target && Rows(x, i + 1, y, marginTop, rng, k').1 == kEnd
  {
    var rest := Rows(x, i + 1, y, marginTop, rng, k');
    if i < y - 4 {
      var t := DeepTile(x, i, y, marginTop, rng, k).0;
      assert Rows(x, i, y, marginTop, rng, k) == ([t] + rest.0, rest.1);
      assert out' + rest.0 == out + ([t] + rest.0);
    } else if i >= y / 2 {
      var t := DirtTile(x, i, y, marginTop);
      assert Rows(x, i, y, marginTop, rng, k) == ([t] + rest.0, rest.1);
      assert out' + rest.0 == out + ([t] + rest.0);
    } else {
      assert Rows(x, i, y, marginTop, rng, k) == rest;
    }
  }

  /** The surface row: grass, then the feature draws, each tile one row higher (i++). */
  method PlaceSurface(tiles: seq<Tile>, col: int, i: int, marginTop: int, rng: Rng, k: nat)
    returns (out: seq<Tile>, i': int, k': nat)
    ensures out == tiles + Surface(col, i, marginTop, rng, k).0
    ensures k' == Surface(col, i, marginTop, rng, k).1
    ensures i' > i
  {
    out := tiles + [SolidTile(col, i, marginTop, GrassCell)];
    i' := i + 1;
    k' := k;
    var d := rng(k');
    k' := k' + 1;
    if d % 10 == 1 {
      out := out + [Decor(col, i', marginTop, PlantCell)];
      i' := i' + 1;
    } else {
      d := rng(k');
      k' := k' + 1;
      if d % 30 == 1 {
        out, i' := GrowTree(out, col, i', marginTop);
      } else {
        d := rng(k');
        k' := k' + 1;
        if d % 15 == 1 {
          out := out + [Decor(col, i', marginTop, DecorACell)];
          i' := i' + 1;
        } else {
          d := rng(k');
          k' := k' + 1;
          if d % 15 == 1 {
            out := out + [Decor(col, i', marginTop, DecorBCell)];
            i' := i' + 1;
          }
        }
      }
    }
  }

  /** The tree: base at row i, trunk rows advance i and record it in ly, then five
      canopy rows of five tiles from ly upwards, columns col + 2 down to col - 2. */
  method GrowTree(tiles: seq<Tile>, col: int, i: int, marginTop: int) returns (out: seq<Tile>, i': int)
    ensures out == tiles + Tree(col, i, marginTop)
    ensures i' == i + 5
  {
    out := tiles + [SolidTile(col, i, marginTop, TreeBaseCell)];
    i' := i + 1;
    var ly := 0;
    var t := 0;
    while t < 4
      invariant 0 <= t <= 4
      invariant i' == i + 1 + t
      invariant t > 0 ==> ly == i'
      invariant out == tiles + [SolidTile(col, i, marginTop, TreeBaseCell)] + Trunk(col, i + 1, marginTop, t)
    {
      out := out + [SolidTile(col, i', marginTop, TrunkCell)];
      i' := i' + 1;
      ly := i';
      t := t + 1;
    }
    ghost var trunk := out;
    var h := 0;
    while h < 5
      invariant 0 <= h <= 5
      invariant ly == i + 5 + h
      invariant out == trunk + Canopy(col, i + 5, marginTop, h)
    {
      var c := 0;
      while c < 5
        invariant 0 <= c <= 5
        invariant out == trunk + Canopy(col, i + 5, marginTop, h) + CanopyRow(col, ly, marginTop, c)
      {
        out := out + [Tile(Rect(Block * col - Block * c + 2 * Block,
                                marginTop + Block * WorldHeight - Block * ly, Block, Block),
                           CanopyCell, true, FullLight)];
        c := c + 1;
      }
      ly := ly + 1;
      h := h + 1;
    }
  }
}
