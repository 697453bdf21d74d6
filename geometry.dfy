// Shared vocabulary of the simulation: rectangles, screen points and tiles.
//
// Lengths are integers in decipixels (tenths of a screen pixel). Every value
// the simulation reaches is a multiple of 0.1 pixel (tile positions are
// multiples of 20, the player rectangle is 15 x 35 at (100, 30), speeds change
// by 0.3, 0.2 or jump to -5), so this scale is exact for the real-number
// arithmetic the program means; floating-point rounding is not modelled.
module Geometry {

  /** Decipixels per screen pixel. */
  const Unit: int := 10

  /** BLOCK_SIZE: the 20-pixel edge of a grid cell, in decipixels. */
  const Block: int := 200

  /** An axis-aligned rectangle (SDL_FRect) in decipixels; y grows downwards. */
  datatype Rect = Rect(x: int, y: int, w: int, h: int)

  /** A screen point (SDL_Point) in whole pixels. */
  datatype Point = Point(x: int, y: int)

  /** A sub-image of the texture atlas (SDL_Rect), in atlas pixels. */
  datatype AtlasRect = AtlasRect(x: int, y: int, w: int, h: int)

  /** A tile's brightness, only used when drawing: full light (1.0, the default), or the
      depth shading 1 - 0.8 / offset, kept as the row offset `offset` (row minus surface
      height, negative) rather than as a number. */
  datatype Light = FullLight | Shaded(offset: int)

  /** The brightness a Light stands for. It is not clamped to [0, 1]: the generator only
      shades rows below the surface, where the offset is negative and the brightness ends up
      above 1. */
  function Brightness(l: Light): (b: real)
    ensures l.Shaded? && l.offset < 0 ==> 1.0 < b <= 1.8
    ensures l.Shaded? && l.offset > 0 ==> 0.2 <= b < 1.0
  {
    match l
    case FullLight => 1.0
    case Shaded(d) => if d == 0 then 1.0 else 1.0 - 0.8 / (d as real)
  }

  function Abs(a: int): nat { if a < 0 then -a else a }

  /** One grid cell of the world. */
  datatype Tile = Tile(rect: Rect, atlas: AtlasRect, solid: bool, light: Light)

  /** Strict overlap of two rectangles on both axes: touching edges do not overlap. */
  predicate Overlaps(a: Rect, b: Rect)
    // Rectangles that only share an edge do not overlap.
    ensures a.x + a.w == b.x || b.x + b.w == a.x || a.y + a.h == b.y || b.y + b.h == a.y ==> !Overlaps(a, b)
  {
    a.x + a.w > b.x && a.x < b.x + b.w && a.y + a.h > b.y && a.y < b.y + b.h
  }

  /** The point `p`, scaled to decipixels, lies strictly inside the tile on all four sides
      (has_intersection); solidity plays no part. It is the rectangle overlap against the
      zero-size rectangle at `p`. */
  predicate HasIntersection(p: Point, t: Tile)
    ensures HasIntersection(p, t) <==> Overlaps(t.rect, Rect(Unit * p.x, Unit * p.y, 0, 0))
    ensures HasIntersection(p, t) ==> t.rect.w > 0 && t.rect.h > 0
  {
    t.rect.x + t.rect.w > Unit * p.x && t.rect.x < Unit * p.x &&
    t.rect.y + t.rect.h > Unit * p.y && t.rect.y < Unit * p.y
  }
}
