// What generate_world builds, stated independently of the draw-by-draw
// definitions: the shape of a tree, the layout of one column, the random walk
// of the surface height, where tiles can land, and one grass tile per column.
module TerrainLayout {
  import opened Geometry
  import opened Terrain

  /** The atlas cells of the underground rows: stone or one of the four veins. */
  predicate Ore(a: AtlasRect)
  {
    a == StoneCell || a == Vein1Cell || a == Vein2Cell || a == Vein3Cell || a == Vein4Cell
  }

  /** The base tile of row `row` in column `col` of height `y`: a solid tile in its cell,
      ore below y - 4 (shaded), dirt up to y - 2 (shaded below y - 2), grass in row y - 1. */
  predicate BaseTile(t: Tile, col: int, row: int, y: int, marginTop: int)
  {
    t.rect == Cell(col, row, marginTop) && t.solid &&
    if row < y - 4 then Ore(t.atlas) && t.light == Shaded(row - y)
    else if row < y - 1 then t.atlas == DirtCell && t.light == (if row < y - 2 then Shaded(row - y) else FullLight)
    else t.atlas == GrassCell && t.light == FullLight
  }

  /** Trunk tiles stand one per row, from `row` upwards. */
  lemma {:induction false} TrunkShape(col: int, row: int, marginTop: int, n: nat)
    ensures |Trunk(col, row, marginTop, n)| == n
    ensures forall j :: 0 <= j < n ==> Trunk(col, row, marginTop, n)[j] == SolidTile(col, row + j, marginTop, TrunkCell)
    decreases n
  {
    if n > 0 {
      TrunkShape(col, row, marginTop, n - 1);
    }
  }

  /** A canopy row runs from column col + 2 leftwards. */
  lemma {:induction false} CanopyRowShape(col: int, row: int, marginTop: int, n: nat)
    ensures |CanopyRow(col, row, marginTop, n)| == n
    ensures forall c :: 0 <= c < n ==> CanopyRow(col, row, marginTop, n)[c] == SolidTile(col + 2 - c, row, marginTop, CanopyCell)
    decreases n
  {
    if n > 0 {
      CanopyRowShape(col, row, marginTop, n - 1);
    }
  }

  /** The canopy is `h` rows of five, row-major from the bottom row, each right to left. */
  lemma {:induction false} CanopyShape(col: int, row: int, marginTop: int, h: nat)
    ensures |Canopy(col, row, marginTop, h)| == 5 * h
    ensures forall j :: 0 <= j < 5 * h ==>
              Canopy(col, row, marginTop, h)[j] == SolidTile(col + 2 - j % 5, row + j / 5, marginTop, CanopyCell)
    decreases h
  {
    if h > 0 {
      CanopyShape(col, row, marginTop, h - 1);
      CanopyRowShape(col, row + h - 1, marginTop, 5);
      var below := Canopy(col, row, marginTop, h - 1);
      var top := CanopyRow(col, row + h - 1, marginTop, 5);
      forall j | 5 * (h - 1) <= j < 5 * h
        ensures Canopy(col, row, marginTop, h)[j] == SolidTile(col + 2 - j % 5, row + j / 5, marginTop, CanopyCell)
      {
        var c := j - 5 * (h - 1);
        assert j % 5 == c && j / 5 == h - 1;
        assert Canopy(col, row, marginTop, h)[j] == top[c];
      }
    }
  }

  /** A tree is thirty solid, fully lit tiles: its base in `row`, four trunk tiles in the
      rows above, then a five-by-five canopy over columns col - 2 to col + 2 and rows
      row + 5 to row + 9. */
  lemma TreeShape(col: int, row: int, marginTop: int)
    ensures var t := Tree(col, row, marginTop);
            |t| == 30 &&
            t[0] == SolidTile(col, row, marginTop, TreeBaseCell) &&
            (forall j :: 1 <= j < 5 ==> t[j] == SolidTile(col, row + j, marginTop, TrunkCell)) &&
            (forall j :: 5 <= j < 30 ==>
               t[j] == SolidTile(col + 2 - (j - 5) % 5, row + 5 + (j - 5) / 5, marginTop, CanopyCell))
    ensures forall t :: t in Tree(col, row, marginTop) ==> t.solid && t.light == FullLight && t.atlas != GrassCell
  {
    TrunkShape(col, row + 1, marginTop, 4);
    CanopyShape(col, row + 5, marginTop, 5);
    var t := Tree(col, row, marginTop);
    var trunk := Trunk(col, row + 1, marginTop, 4);
    var canopy := Canopy(col, row + 5, marginTop, 5);
    assert t == [SolidTile(col, row, marginTop, TreeBaseCell)] + trunk + canopy;
    forall j | 5 <= j < 30
      ensures t[j] == SolidTile(col + 2 - (j - 5) % 5, row + 5 + (j - 5) / 5, marginTop, CanopyCell)
    {
      assert t[j] == canopy[j - 5];
    }
    forall x | x in t
      ensures x.solid && x.light == FullLight && x.atlas != GrassCell
    {
      var j :| 0 <= j < |t| && t[j] == x;
      if 1 <= j < 5 {
        assert t[j] == trunk[j - 1];
      }
    }
  }

  /** The rows of a column from row `i` up, for a height of at least 8 (every height the
      walk reaches is at least 9): one base tile per row up to the grass in row y - 1, then
      one feature standing on the grass. */
  lemma {:induction false} RowsLayout(col: int, i: int, y: int, marginTop: int, rng: Rng, k: nat)
    requires 0 <= i < y && 8 <= y
    ensures var c := Rows(col, i, y, marginTop, rng, k).0;
            y - i <= |c| &&
            (forall j :: 0 <= j < y - i ==> BaseTile(c[j], col, i + j, y, marginTop)) &&
            IsFeature(c[y - i..], col, y, marginTop)
    decreases y - i
  {
    if i == y - 1 {
      RowsSurface(col, y, marginTop, rng, k);
    } else {
      var k1 := RowsHead(col, i, y, marginTop, rng, k);
      RowsLayout(col, i + 1, y, marginTop, rng, k1);
      LayoutCons(Rows(col, i, y, marginTop, rng, k).0, Rows(col, i + 1, y, marginTop, rng, k1).0, col, i, y, marginTop);
    }
  }

  /** The surface row: the grass tile, then the feature standing on it. */
  lemma RowsSurface(col: int, y: int, marginTop: int, rng: Rng, k: nat)
    requires 8 <= y
    ensures var c := Rows(col, y - 1, y, marginTop, rng, k).0;
            1 <= |c| && BaseTile(c[0], col, y - 1, y, marginTop) && IsFeature(c[1..], col, y, marginTop)
  {
    assert Rows(col, y - 1, y, marginTop, rng, k) == Surface(col, y - 1, marginTop, rng, k);
  }

  /** A base tile for row `i` in front of the layout from row i + 1 is the layout from row `i`. */
  lemma LayoutCons(c: seq<Tile>, rest: seq<Tile>, col: int, i: int, y: int, marginTop: int)
    requires 0 <= i < y - 1 && c != [] && BaseTile(c[0], col, i, y, marginTop) && c[1..] == rest
    requires y - (i + 1) <= |rest| &&
             (forall j :: 0 <= j < y - (i + 1) ==> BaseTile(rest[j], col, i + 1 + j, y, marginTop)) &&
             IsFeature(rest[y - (i + 1)..], col, y, marginTop)
    ensures y - i <= |c|
    ensures forall j :: 0 <= j < y - i ==> BaseTile(c[j], col, i + j, y, marginTop)
    ensures IsFeature(c[y - i..], col, y, marginTop)
  {
    assert c[y - i..] == rest[y - (i + 1)..];
    forall j | 1 <= j < y - i
      ensures BaseTile(c[j], col, i + j, y, marginTop)
    {
      assert c[j] == rest[j - 1];
    }
  }

  /** Below the surface row, a row adds its base tile and the loop goes on one row up. */
  lemma RowsHead(col: int, i: int, y: int, marginTop: int, rng: Rng, k: nat) returns (k1: nat)
    requires 0 <= i < y - 1 && 8 <= y
    ensures k1 == if i < y - 4 then DeepTile(col, i, y, marginTop, rng, k).1 else k
    ensures var c := Rows(col, i, y, marginTop, rng, k).0;
            c != [] && BaseTile(c[0], col, i, y, marginTop) && c[1..] == Rows(col, i + 1, y, marginTop, rng, k1).0
  {
    k1 := if i < y - 4 then DeepTile(col, i, y, marginTop, rng, k).1 else k;
  }

  /** One whole column: exactly `y` base tiles, one per row 0 to y - 1, then its feature. */
  lemma ColumnLayout(col: int, y: int, marginTop: int, rng: Rng, k: nat)
    requires 8 <= y
    ensures var c := Rows(col, 0, y, marginTop, rng, k).0;
            y <= |c| <= y + 30 &&
            (forall j :: 0 <= j < y ==> BaseTile(c[j], col, j, y, marginTop)) &&
            IsFeature(c[y..], col, y, marginTop)
  {
    RowsLayout(col, 0, y, marginTop, rng, k);
    TreeShape(col, y, marginTop);
  }

  /** Draws consumed by a column from row `i` up: one to four per row below the dirt
      band, one to four for the feature, none for the dirt rows. */
  lemma {:induction false} RowsDraws(col: int, i: int, y: int, marginTop: int, rng: Rng, k: nat)
    requires 0 <= i < y && 8 <= y
    ensures var deep := if i < y - 4 then y - 4 - i else 0;
            k + deep + 1 <= Rows(col, i, y, marginTop, rng, k).1 <= k + 4 * deep + 4
    decreases y - i
  {
    if i < y - 1 {
      var k1 := if i < y - 4 then DeepTile(col, i, y, marginTop, rng, k).1 else k;
      RowsDraws(col, i + 1, y, marginTop, rng, k1);
    }
  }

  /** The surface height after `n` columns: it starts in [10, 34], never drops below 9,
      moves by at most one per column, and so is at most 34 + n. */
  lemma {:induction false} HeightWalk(n: nat, marginTop: int, rng: Rng)
    ensures 9 <= Built(n, marginTop, rng).1 <= 34 + n
    ensures n == 0 ==> 10 <= Built(n, marginTop, rng).1
    ensures n > 0 ==> Built(n - 1, marginTop, rng).1 - 1 <= Built(n, marginTop, rng).1 <= Built(n - 1, marginTop, rng).1 + 1
    decreases n
  {
    if n > 0 {
      HeightWalk(n - 1, marginTop, rng);
    }
  }

  /** A tile on the world's grid: one cell, in columns -2 to WorldWidth + 1 (a tree's canopy
      reaches two columns either side of its trunk) and rows 0 to MaxRow. */
  predicate OnGrid(t: Tile, marginTop: int)
  {
    t.rect.w == Block && t.rect.h == Block &&
    t.rect.x % Block == 0 && -2 * Block <= t.rect.x <= Block * (WorldWidth + 1) &&
    (t.rect.y - marginTop) % Block == 0 &&
    marginTop + Block * (WorldHeight - MaxRow) <= t.rect.y <= marginTop + Block * WorldHeight
  }

  lemma CellOnGrid(col: int, row: int, marginTop: int)
    requires -2 <= col <= WorldWidth + 1 && 0 <= row <= MaxRow
    ensures forall t: Tile :: t.rect == Cell(col, row, marginTop) ==> OnGrid(t, marginTop)
  {
    assert (Block * col) % Block == 0;
    assert (Block * WorldHeight - Block * row) % Block == 0 by {
      assert Block * WorldHeight - Block * row == Block * (WorldHeight - row);
    }
  }

  /** Every tile of a column whose surface is at most MaxRow - 9 lies on the grid. */
  lemma ColumnOnGrid(col: int, y: int, marginTop: int, rng: Rng, k: nat)
    requires 0 <= col < WorldWidth && 8 <= y <= MaxRow - 9
    ensures forall t :: t in Rows(col, 0, y, marginTop, rng, k).0 ==> OnGrid(t, marginTop)
  {
    var c := Rows(col, 0, y, marginTop, rng, k).0;
    ColumnLayout(col, y, marginTop, rng, k);
    TreeShape(col, y, marginTop);
    forall t | t in c
      ensures OnGrid(t, marginTop)
    {
      var j :| 0 <= j < |c| && c[j] == t;
      if j < y {
        CellOnGrid(col, j, marginTop);
      } else {
        var f := c[y..];
        assert t == f[j - y];
        if f == Tree(col, y, marginTop) {
          var m := j - y;
          if m == 0 {
            CellOnGrid(col, y, marginTop);
          } else if m < 5 {
            CellOnGrid(col, y + m, marginTop);
          } else {
            CellOnGrid(col + 2 - (m - 5) % 5, y + 5 + (m - 5) / 5, marginTop);
          }
        } else {
          CellOnGrid(col, y, marginTop);
        }
      }
    }
  }

  /** Every tile of the first `n` columns lies on the grid. */
  lemma {:induction false} BuiltOnGrid(n: nat, marginTop: int, rng: Rng)
    requires n <= WorldWidth
    ensures forall t :: t in Built(n, marginTop, rng).0 ==> OnGrid(t, marginTop)
    decreases n
  {
    if n > 0 {
      BuiltOnGrid(n - 1, marginTop, rng);
      HeightWalk(n - 1, marginTop, rng);
      var prev := Built(n - 1, marginTop, rng);
      ColumnOnGrid(n - 1, prev.1, marginTop, rng, prev.2);
      var before := prev.0;
      var c := Rows(n - 1, 0, prev.1, marginTop, rng, prev.2).0;
      forall t | t in before + c
        ensures OnGrid(t, marginTop)
      {
        if t !in before {
          assert t in c;
        }
      }
    }
  }

  /** generate_world only places tiles on the grid. */
  lemma GeneratedOnGrid(marginTop: int, rng: Rng)
    ensures forall t :: t in Generated(marginTop, rng) ==> OnGrid(t, marginTop)
  {
    BuiltOnGrid(WorldWidth, marginTop, rng);
  }

  /** How many tiles show the atlas cell `a`. */
  function CountCell(ts: seq<Tile>, a: AtlasRect): (n: nat)
    ensures n <= |ts|
    ensures n == 0 <==> forall t :: t in ts ==> t.atlas != a
  {
    if ts == [] then 0 else (if ts[0].atlas == a then 1 else 0) + CountCell(ts[1..], a)
  }

  lemma {:induction false} CountConcat(s: seq<Tile>, u: seq<Tile>, a: AtlasRect)
    ensures CountCell(s + u, a) == CountCell(s, a) + CountCell(u, a)
    decreases |s|
  {
    if s == [] {
      assert s + u == u;
    } else {
      assert (s + u)[1..] == s[1..] + u;
      CountConcat(s[1..], u, a);
    }
  }

  /** Base tiles from row `i` up to the surface hold exactly one grass tile. */
  lemma {:induction false} BaseGrass(s: seq<Tile>, col: int, i: int, y: int, marginTop: int)
    requires s != [] && i + |s| == y
    requires forall j :: 0 <= j < |s| ==> BaseTile(s[j], col, i + j, y, marginTop)
    ensures CountCell(s, GrassCell) == 1
    decreases |s|
  {
    if |s| > 1 {
      assert BaseTile(s[0], col, i, y, marginTop);
      BaseGrass(s[1..], col, i + 1, y, marginTop);
    } else {
      assert BaseTile(s[0], col, i, y, marginTop);
    }
  }

  /** Each column holds exactly one grass tile, its surface. */
  lemma ColumnGrass(col: int, y: int, marginTop: int, rng: Rng, k: nat)
    requires 8 <= y
    ensures CountCell(Rows(col, 0, y, marginTop, rng, k).0, GrassCell) == 1
  {
    var c := Rows(col, 0, y, marginTop, rng, k).0;
    ColumnLayout(col, y, marginTop, rng, k);
    TreeShape(col, y, marginTop);
    assert c == c[..y] + c[y..];
    CountConcat(c[..y], c[y..], GrassCell);
    BaseGrass(c[..y], col, 0, y, marginTop);
  }

  /** The first `n` columns hold exactly `n` grass tiles. */
  lemma {:induction false} BuiltGrass(n: nat, marginTop: int, rng: Rng)
    ensures CountCell(Built(n, marginTop, rng).0, GrassCell) == n
    decreases n
  {
    if n > 0 {
      BuiltGrass(n - 1, marginTop, rng);
      HeightWalk(n - 1, marginTop, rng);
      var prev := Built(n - 1, marginTop, rng);
      ColumnGrass(n - 1, prev.1, marginTop, rng, prev.2);
      CountConcat(prev.0, Rows(n - 1, 0, prev.1, marginTop, rng, prev.2).0, GrassCell);
    }
  }

  /** generate_world builds exactly WORLD_WIDTH columns: one grass surface tile each. */
  lemma GeneratedColumns(marginTop: int, rng: Rng)
    ensures CountCell(Generated(marginTop, rng), GrassCell) == WorldWidth
  {
    BuiltGrass(WorldWidth, marginTop, rng);
  }
}
