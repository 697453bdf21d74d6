// Collision resolver (move_rect_on_world): move a rectangle by its intended
// displacement against the solid tiles, one axis at a time, x first.
module Collision {
  import opened Geometry
  import opened SpatialQuery

  /** A pair of per-axis values (SDL_FPoint), in decipixels per tick. */
  datatype Vec = Vec(x: int, y: int)

  /** MovementContext: the displacement about to be applied and the persistent speed. */
  datatype Movement = Movement(to: Vec, acc: Vec)

  function Last(hits: seq<Tile>): Tile
    requires hits != []
  {
    hits[|hits| - 1]
  }

  /** The x pass takes `before` to `after` and leaves `accX` as the horizontal speed:
      shift by `to.x`; if the shifted rectangle hits solids while moving, it ends flush
      against the LAST hit in scan order (its left edge when moving right, its right edge
      when moving left) and the horizontal speed is zeroed; otherwise it keeps the shift.
      y, width and height are untouched. */
  ghost predicate PassX(before: Rect, m: Movement, tiles: seq<Tile>, after: Rect, accX: int)
  {
    var shifted := before.(x := before.x + m.to.x);
    var hits := Colliders(shifted, tiles);
    after.y == before.y && after.w == before.w && after.h == before.h &&
    if hits == [] || m.to.x == 0 then
      after.x == shifted.x && accX == m.acc.x
    else
      accX == 0 &&
      after.x == (if m.to.x > 0 then Last(hits).rect.x - before.w
                  else Last(hits).rect.x + Last(hits).rect.w)
  }

  /** The y pass, symmetric to PassX: moving down ends on top of the last hit,
      moving up ends under it. */
  ghost predicate PassY(before: Rect, m: Movement, tiles: seq<Tile>, after: Rect, accY: int)
  {
    var shifted := before.(y := before.y + m.to.y);
    var hits := Colliders(shifted, tiles);
    after.x == before.x && after.w == before.w && after.h == before.h &&
    if hits == [] || m.to.y == 0 then
      after.y == shifted.y && accY == m.acc.y
    else
      accY == 0 &&
      after.y == (if m.to.y > 0 then Last(hits).rect.y - before.h
                  else Last(hits).rect.y + Last(hits).rect.h)
  }

  /** The whole resolution: the x pass from `rect`, then the y pass from the
      rectangle the x pass left; `to` is never changed. */
  ghost predicate Resolved(rect: Rect, m: Movement, tiles: seq<Tile>, r: Rect, m': Movement)
  {
    var mid := r.(y := rect.y);
    m'.to == m.to &&
    PassX(rect, m, tiles, mid, m'.acc.x) &&
    PassY(mid, m, tiles, r, m'.acc.y)
  }

  /** move_rect_on_world. The tile vector is passed by value and cannot change. */
  method MoveRectOnWorld(rect: Rect, m: Movement, tiles: seq<Tile>) returns (r: Rect, m': Movement)
    ensures Resolved(rect, m, tiles, r, m')
    ensures r.w == rect.w && r.h == rect.h && m'.to == m.to
    // Clear path: nothing blocks either shift, so the rectangle moves by exactly `to`
    // and both speeds are kept.
    ensures Colliders(rect.(x := rect.x + m.to.x), tiles) == [] &&
            Colliders(Rect(rect.x + m.to.x, rect.y + m.to.y, rect.w, rect.h), tiles) == []
            ==> r == Rect(rect.x + m.to.x, rect.y + m.to.y, rect.w, rect.h) && m' == m
    // Standing still on an axis never snaps on it, whatever overlaps.
    ensures m.to.x == 0 ==> r.x == rect.x && m'.acc.x == m.acc.x
    ensures m.to.y == 0 ==> r.y == rect.y && m'.acc.y == m.acc.y
    // A snap leaves the rectangle clear of the tile it snapped to, touching it.
    ensures var hits := Colliders(rect.(x := rect.x + m.to.x), tiles);
            hits != [] && m.to.x != 0 ==>
              !Overlaps(Last(hits).rect, r) &&
              (r.x + r.w == Last(hits).rect.x || r.x == Last(hits).rect.x + Last(hits).rect.w)
    ensures var hits := Colliders(Rect(r.x, rect.y + m.to.y, rect.w, rect.h), tiles);
            hits != [] && m.to.y != 0 ==>
              !Overlaps(Last(hits).rect, r) &&
              (r.y + r.h == Last(hits).rect.y || r.y == Last(hits).rect.y + Last(hits).rect.h)
  {
    var mid, accX := SweepX(rect, m, tiles);
    var accY;
    r, accY := SweepY(mid, m, tiles);
    m' := Movement(m.to, Vec(accX, accY));
    assert mid == r.(y := rect.y);
  }

  /** The x pass of move_rect_on_world: shift, query, then re-snap for every hit in scan order. */
  method SweepX(rect: Rect, m: Movement, tiles: seq<Tile>) returns (r: Rect, accX: int)
    ensures PassX(rect, m, tiles, r, accX)
  {
    r := rect.(x := rect.x + m.to.x);
    accX := m.acc.x;
    var hits := GetTilesCollider(r, tiles);
    ghost var shifted := r;
    var i := 0;
    while i < |hits|
      invariant 0 <= i <= |hits|
      invariant r.y == rect.y && r.w == rect.w && r.h == rect.h
      invariant i == 0 || m.to.x == 0 ==> r == shifted && accX == m.acc.x
      invariant i > 0 && m.to.x > 0 ==> r.x == hits[i - 1].rect.x - rect.w && accX == 0
      invariant i > 0 && m.to.x < 0 ==> r.x == hits[i - 1].rect.x + hits[i - 1].rect.w && accX == 0
    {
      var tile := hits[i];
      if m.to.x > 0 {
        r := r.(x := tile.rect.x - r.w);
        accX := 0;
      } else if m.to.x < 0 {
        r := r.(x := tile.rect.x + tile.rect.w);
        accX := 0;
      }
      i := i + 1;
    }
  }

  /** The y pass of move_rect_on_world, from the rectangle the x pass left. */
  method SweepY(rect: Rect, m: Movement, tiles: seq<Tile>) returns (r: Rect, accY: int)
    ensures PassY(rect, m, tiles, r, accY)
  {
    r := rect.(y := rect.y + m.to.y);
    accY := m.acc.y;
    var hits := GetTilesCollider(r, tiles);
    ghost var shifted := r;
    var i := 0;
    while i < |hits|
      invariant 0 <= i <= |hits|
      invariant r.x == rect.x && r.w == rect.w && r.h == rect.h
      invariant i == 0 || m.to.y == 0 ==> r == shifted && accY == m.acc.y
      invariant i > 0 && m.to.y > 0 ==> r.y == hits[i - 1].rect.y - rect.h && accY == 0
      invariant i > 0 && m.to.y < 0 ==> r.y == hits[i - 1].rect.y + hits[i - 1].rect.h && accY == 0
    {
      var tile := hits[i];
      if m.to.y > 0 {
        r := r.(y := tile.rect.y - r.h);
        accY := 0;
      } else if m.to.y < 0 {
        r := r.(y := tile.rect.y + tile.rect.h);
        accY := 0;
      }
      i := i + 1;
    }
  }
}
