// Spatial query (get_tiles_collider): the solid tiles overlapping a rectangle,
// found by a full scan of the tile vector in its order.
module SpatialQuery {
  import opened Geometry

  /** A tile that stops a rectangle: solid and strictly overlapping it. */
  predicate Blocks(t: Tile, r: Rect)
  {
    t.solid && Overlaps(t.rect, r)
  }

  /** The blocking tiles of `tiles`, in scan order. */
  function Colliders(r: Rect, tiles: seq<Tile>): (hits: seq<Tile>)
    ensures |hits| <= |tiles|
    ensures forall t :: t in hits ==> t in tiles && Blocks(t, r)
  {
    if tiles == [] then []
    else
      var last := tiles[|tiles| - 1];
      Colliders(r, tiles[..|tiles| - 1]) + (if Blocks(last, r) then [last] else [])
  }

  /** The scan keeps input order: querying a concatenation concatenates the answers. */
  lemma {:induction false} CollidersConcat(r: Rect, a: seq<Tile>, b: seq<Tile>)
    ensures Colliders(r, a + b) == Colliders(r, a) + Colliders(r, b)
    decreases |b|
  {
    if b == [] {
      assert a + b == a;
    } else {
      var b' := b[..|b| - 1];
      assert (a + b)[..|a + b| - 1] == a + b';
      CollidersConcat(r, a, b');
    }
  }

  /** Exactly the solid, strictly overlapping tiles are found; a tile that only
      touches an edge of `r` is never found. */
  lemma {:induction false} CollidersExactly(r: Rect, tiles: seq<Tile>)
    ensures forall t :: t in Colliders(r, tiles) <==> t in tiles && t.solid && Overlaps(t.rect, r)
    ensures forall t :: t in tiles && (t.rect.x + t.rect.w == r.x || t.rect.x == r.x + r.w ||
                                       t.rect.y + t.rect.h == r.y || t.rect.y == r.y + r.h)
                        ==> t !in Colliders(r, tiles)
    decreases |tiles|
  {
    if tiles != [] {
      var init := tiles[..|tiles| - 1];
      CollidersExactly(r, init);
      assert tiles == init + [tiles[|tiles| - 1]];
      forall t | t in tiles && Blocks(t, r) ensures t in Colliders(r, tiles) {
        if t != tiles[|tiles| - 1] {
          assert t in init;
        }
      }
    }
  }

  /** get_tiles_collider: scan the tiles once, appending each blocking tile to a fresh list. */
  method GetTilesCollider(r: Rect, tiles: seq<Tile>) returns (hits: seq<Tile>)
    ensures hits == Colliders(r, tiles)
    ensures forall t :: t in hits <==> t in tiles && Blocks(t, r)
  {
    hits := [];
    var i := 0;
    while i < |tiles|
      invariant 0 <= i <= |tiles|
      invariant hits == Colliders(r, tiles[..i])
    {
      assert tiles[..i + 1][..i] == tiles[..i];
      if Blocks(tiles[i], r) {
        hits := hits + [tiles[i]];
      }
      i := i + 1;
    }
    assert tiles[..i] == tiles;
    CollidersExactly(r, tiles);
  }
}
