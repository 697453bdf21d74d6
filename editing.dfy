// World editing from the main loop: the block chosen by number key, snapped to
// the grid under the mouse (get_tile_from_id); placing it in the world or the
// background; digging the tiles under the mouse; and regenerating the world.
//
// Mouse positions are screen points already shifted by the camera (`scrolled`),
// in whole pixels; tile rectangles are in decipixels as everywhere else.
module Editing {
  import opened Geometry
  import opened Terrain

  datatype Option<T> = None | Some(value: T)

  /** std::round((p - 10) / 20): the nearest grid index to a pixel coordinate measured from
      half a block back, halves rounded away from zero. */
  function GridIndex(p: int): (g: int)
    // The nearest integer to (p - 10) / 20 ...
    ensures 2 * Abs((p - 10) - 20 * g) <= 20
    // ... and on a tie the one farther from zero.
    ensures 2 * Abs((p - 10) - 20 * g) == 20 ==> Abs(20 * g) > Abs(p - 10)
  {
    var n := p - 10;
    if n >= 0 then (n + 10) / 20 else -((-n + 10) / 20)
  }

  /** The snap is the grid cell containing the point, 20 * floor(p / 20), except on a grid
      line at or left of (above) the origin, where the half-away-from-zero rounding picks
      the cell before it. In particular every coordinate of at least 10 snaps to its cell. */
  lemma GridIndexIsFloor(p: int)
    ensures GridIndex(p) == if p <= 0 && p % 20 == 0 then p / 20 - 1 else p / 20
    ensures p >= 10 ==> 20 * GridIndex(p) <= p < 20 * GridIndex(p) + 20
  {
  }

  /** The 20 x 20 cell (in decipixels) the block snaps to under the point. */
  function SnappedCell(p: Point): Rect
  {
    Rect(Block * GridIndex(p.x), Block * GridIndex(p.y), Block, Block)
  }

  /** The atlas cell of each placeable block id. */
  function BlockAtlas(id: nat): (r: Option<AtlasRect>)
    ensures r.Some? <==> 1 <= id <= 8
    ensures r.Some? ==> r.value.w == 8 && r.value.h == 8 && r.value.x % 8 == 0 && r.value.y % 8 == 0
  {
    match id
    case 1 => Some(AtlasRect(8 * 6, 8 * 2, 8, 8))
    case 2 => Some(AtlasRect(8 * 7, 8 * 2, 8, 8))
    case 3 => Some(AtlasRect(8 * 4, 8 * 4, 8, 8))
    case 4 => Some(AtlasRect(8 * 5, 8 * 4, 8, 8))
    case 5 => Some(AtlasRect(8 * 6, 8 * 4, 8, 8))
    case 6 => Some(AtlasRect(8 * 7, 8 * 3, 8, 8))
    case 7 => Some(AtlasRect(8 * 7, 8 * 4, 8, 8))
    case 8 => Some(AtlasRect(8 * 8, 8 * 3, 8, 8))
    case _ => None
  }

  /** get_tile_from_id: for ids 1 to 8 a solid, fully lit block in the snapped cell; any
      other id matches no case, and the program then returns a tile whose rectangle and
      atlas cell were never set (None here). */
  function TileFromId(id: nat, p: Point): (r: Option<Tile>)
    ensures r.Some? <==> 1 <= id <= 8
    ensures r.Some? ==> r.value.solid && r.value.light == FullLight &&
                        r.value.rect.w == Block && r.value.rect.h == Block &&
                        r.value.rect.x % Block == 0 && r.value.rect.y % Block == 0 &&
                        r.value.atlas.w == 8 && r.value.atlas.h == 8
  {
    match BlockAtlas(id)
    case Some(a) => Some(Tile(SnappedCell(p), a, true, FullLight))
    case None => None
  }

  /** Distinct ids give distinct blocks. */
  lemma TileFromIdInjective(id1: nat, id2: nat, p: Point)
    requires 1 <= id1 <= 8 && 1 <= id2 <= 8
    ensures TileFromId(id1, p) == TileFromId(id2, p) <==> id1 == id2
  {
  }

  /** A placed block strictly contains the point it was placed at, so digging at the same
      point removes it, exactly when the point is on no grid line. */
  lemma PlacedContainsPoint(id: nat, p: Point)
    requires 1 <= id <= 8
    ensures HasIntersection(p, TileFromId(id, p).value) <==> p.x % 20 != 0 && p.y % 20 != 0
  {
    GridIndexIsFloor(p.x);
    GridIndexIsFloor(p.y);
  }

  /** The tile the place action pushes: the block, or for an id with no block the
      default-constructed tile, solid and fully lit with whatever rectangle and atlas cell
      `unsetRect` and `unsetAtlas` stand for. */
  function PlacedTile(id: nat, p: Point, unsetRect: Rect, unsetAtlas: AtlasRect): (t: Tile)
    ensures t.solid && t.light == FullLight
    ensures 1 <= id <= 8 ==> Some(t) == TileFromId(id, p)
    ensures !(1 <= id <= 8) ==> t.rect == unsetRect && t.atlas == unsetAtlas
  {
    match TileFromId(id, p)
    case Some(t) => t
    case None => Tile(unsetRect, unsetAtlas, true, FullLight)
  }

  /** Ids 6 to 8 are background blocks. */
  predicate IsBackground(id: nat)
  {
    6 <= id <= 8
  }

  // ---------------------------------------------------------------------------
  // Digging.

  /** The tiles that do not contain the point, in order: what digging is meant to leave. */
  function Outside(ts: seq<Tile>, p: Point): (r: seq<Tile>)
    ensures |r| <= |ts|
    // Nothing is removed only when the list is left as it was.
    ensures |r| == |ts| ==> r == ts
  {
    if ts == [] then []
    else (if HasIntersection(p, ts[0]) then [] else [ts[0]]) + Outside(ts[1..], p)
  }

  /** Digging as intended keeps exactly the tiles that do not contain the point. */
  lemma {:induction false} OutsideExactly(ts: seq<Tile>, p: Point)
    ensures forall t :: t in Outside(ts, p) <==> t in ts && !HasIntersection(p, t)
    decreases |ts|
  {
    if ts != [] {
      OutsideExactly(ts[1..], p);
      assert ts == [ts[0]] + ts[1..];
    }
  }

  /** What the dig loop leaves as written: a containing tile is erased and the tile that
      slides into its slot is stepped over by the loop's increment, unexamined. */
  function DigAsWritten(ts: seq<Tile>, p: Point): (r: seq<Tile>)
    ensures |r| <= |ts|
    ensures |r| == |ts| ==> r == ts
    // One pass removes at most half of the tiles, rounded up: after each erase the next
    // tile is passed over.
    ensures |ts| - |r| <= (|ts| + 1) / 2
  {
    if ts == [] then []
    else if HasIntersection(p, ts[0]) then
      (if |ts| == 1 then [] else [ts[1]] + DigAsWritten(ts[2..], p))
    else [ts[0]] + DigAsWritten(ts[1..], p)
  }

  /** Digging as written keeps every tile that does not contain the point, in order. */
  lemma {:induction false} DigKeepsOutside(ts: seq<Tile>, p: Point)
    ensures Outside(DigAsWritten(ts, p), p) == Outside(ts, p)
    decreases |ts|
  {
    if ts != [] {
      if HasIntersection(p, ts[0]) {
        if |ts| > 1 {
          var rest := DigAsWritten(ts[2..], p);
          DigKeepsOutside(ts[2..], p);
          assert ([ts[1]] + rest)[1..] == rest;
          assert ts[1..][1..] == ts[2..];
        }
      } else {
        var rest := DigAsWritten(ts[1..], p);
        DigKeepsOutside(ts[1..], p);
        assert ([ts[0]] + rest)[1..] == rest;
      }
    }
  }

  /** How many times `t` occurs in `ts`. */
  function Occurrences(ts: seq<Tile>, t: Tile): nat
  {
    if ts == [] then 0 else (if ts[0] == t then 1 else 0) + Occurrences(ts[1..], t)
  }

  /** Digging as written only removes tiles, and only tiles containing the point: no tile
      occurs more often afterwards, and one that occurs less often contains the point. */
  lemma {:induction false} DigOnlyRemoves(ts: seq<Tile>, p: Point, t: Tile)
    ensures Occurrences(DigAsWritten(ts, p), t) <= Occurrences(ts, t)
    ensures Occurrences(DigAsWritten(ts, p), t) < Occurrences(ts, t) ==> HasIntersection(p, t)
    decreases |ts|
  {
    if ts != [] {
      if HasIntersection(p, ts[0]) {
        if |ts| > 1 {
          var rest := DigAsWritten(ts[2..], p);
          DigOnlyRemoves(ts[2..], p, t);
          assert ([ts[1]] + rest)[1..] == rest;
          assert ts[1..][1..] == ts[2..];
        }
      } else {
        var rest := DigAsWritten(ts[1..], p);
        DigOnlyRemoves(ts[1..], p, t);
        assert ([ts[0]] + rest)[1..] == rest;
      }
    }
  }

  /** In a run of tiles that all contain the point, digging as written removes every other
      one: the tiles at odd positions survive. */
  lemma {:induction false} DigHalvesRun(ts: seq<Tile>, p: Point)
    requires forall t :: t in ts ==> HasIntersection(p, t)
    ensures |DigAsWritten(ts, p)| == |ts| / 2
    ensures forall j :: 0 <= j < |ts| / 2 ==> DigAsWritten(ts, p)[j] == ts[2 * j + 1]
    decreases |ts|
  {
    if |ts| >= 2 {
      assert ts[0] in ts;
      DigHalvesRun(ts[2..], p);
      var rest := DigAsWritten(ts[2..], p);
      forall j | 1 <= j < |ts| / 2
        ensures DigAsWritten(ts, p)[j] == ts[2 * j + 1]
      {
        assert DigAsWritten(ts, p)[j] == rest[j - 1];
      }
    } else if |ts| == 1 {
      assert ts[0] in ts;
    }
  }

  /** One pass of the dig loop at index `i`: erasing and stepping past the next tile, or
      stepping past a tile that stays, leaves the loop's account of the result unchanged. */
  lemma DigStep(ts: seq<Tile>, i: int, p: Point)
    requires 0 <= i < |ts|
    ensures var after := if HasIntersection(p, ts[i]) then ts[..i] + ts[i + 1..] else ts;
            var goal := ts[..i] + DigAsWritten(ts[i..], p);
            (i + 1 <= |after| ==> after[..i + 1] + DigAsWritten(after[i + 1..], p) == goal) &&
            (i + 1 > |after| ==> after == goal)
  {
    if HasIntersection(p, ts[i]) {
      var after := ts[..i] + ts[i + 1..];
      if i + 1 < |ts| {
        assert ts[i..][2..] == after[i + 1..];
        assert after[..i + 1] == ts[..i] + [ts[i + 1]];
      } else {
        assert after == ts[..i];
      }
    } else {
      assert ts[i..][1..] == ts[i + 1..];
      assert ts[..i + 1] == ts[..i] + [ts[i]];
    }
  }

  /** Two copies of a tile under the cursor: one dig pass leaves one of them standing. */
  lemma DigSkipsNeighbour(t: Tile, p: Point)
    requires HasIntersection(p, t)
    ensures DigAsWritten([t, t], p) == [t]
    ensures Outside([t, t], p) == []
  {
    assert [t, t][2..] == [];
    assert [t, t][1..] == [t];
    assert [t][1..] == [];
    assert DigAsWritten([t, t], p) == [t] + DigAsWritten([], p);
    assert Outside([t, t], p) == [] + Outside([t], p);
    assert Outside([t], p) == [] + Outside([], p);
  }

  // ---------------------------------------------------------------------------
  // The world's two tile lists, as the main loop keeps and edits them.

  class World {
    /** world_tilemap: the solid layer the player collides with. */
    var tiles: seq<Tile>
    /** world_tilemap_background: the decorative layer behind it. */
    var background: seq<Tile>

    /** The start of the program: a freshly generated world and an empty background. */
    constructor (rng: Rng)
      ensures tiles == Generated(DefaultMarginTop, rng) && background == []
    {
      background := [];
      var generated := GenerateWorld([], DefaultMarginTop, rng);
      tiles := generated;
    }

    /** The R key: clear both lists and generate a new world with fresh draws. */
    method Reset(rng: Rng)
      modifies this
      ensures tiles == Generated(DefaultMarginTop, rng) && background == []
    {
      tiles := [];
      background := [];
      var generated := GenerateWorld([], DefaultMarginTop, rng);
      tiles := generated;
    }

    /** The dig pass as written: an ascending index loop that erases in place. */
    method Dig(p: Point)
      modifies this`tiles
      ensures tiles == DigAsWritten(old(tiles), p)
    {
      var i := 0;
      while i < |tiles|
        invariant 0 <= i <= |tiles| + 1
        invariant i <= |tiles| ==> tiles[..i] + DigAsWritten(tiles[i..], p) == DigAsWritten(old(tiles), p)
        invariant i == |tiles| + 1 ==> tiles == DigAsWritten(old(tiles), p)
      {
        DigStep(tiles, i, p);
        if HasIntersection(p, tiles[i]) {
          tiles := tiles[..i] + tiles[i + 1..];
        }
        i := i + 1;
      }
      if i == |tiles| {
        assert tiles[..i] == tiles;
      }
    }

    /** The dig pass as intended: erase every tile containing the point, examining the
      tile that slides into an erased slot before moving on. */
    method DigAll(p: Point)
      modifies this`tiles
      ensures tiles == Outside(old(tiles), p)
    {
      var i := 0;
      while i < |tiles|
        invariant 0 <= i <= |tiles|
        invariant tiles[..i] + Outside(tiles[i..], p) == Outside(old(tiles), p)
        decreases |tiles| - i
      {
        if HasIntersection(p, tiles[i]) {
          ghost var before := tiles;
          tiles := tiles[..i] + tiles[i + 1..];
          assert before[i..][1..] == tiles[i..];
          assert tiles[..i] == before[..i];
        } else {
          assert tiles[i..][1..] == tiles[i + 1..];
          assert tiles[..i + 1] == tiles[..i] + [tiles[i]];
          i := i + 1;
        }
      }
      assert tiles[..i] == tiles;
    }

    /** The place action: once the cooldown has elapsed, push the chosen block onto the
      background list for ids 6 to 8 and onto the world list otherwise (including ids with
      no block). Before the cooldown nothing changes. */
    method Place(id: nat, p: Point, cooldownElapsed: bool, unsetRect: Rect, unsetAtlas: AtlasRect)
      modifies this
      ensures !cooldownElapsed ==> tiles == old(tiles) && background == old(background)
      ensures cooldownElapsed && IsBackground(id) ==>
                background == old(background) + [PlacedTile(id, p, unsetRect, unsetAtlas)] && tiles == old(tiles)
      ensures cooldownElapsed && !IsBackground(id) ==>
                tiles == old(tiles) + [PlacedTile(id, p, unsetRect, unsetAtlas)] && background == old(background)
    {
      if cooldownElapsed {
        var t := PlacedTile(id, p, unsetRect, unsetAtlas);
        if 6 <= id && id <= 8 {
          background := background + [t];
        } else {
          tiles := tiles + [t];
        }
      }
    }
  }
}
