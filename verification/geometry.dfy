/** Grid geometry of the perft generator: a coordinate, the four directions
    and the translation of a coordinate by a direction (`Add<Direction>`).
    The three crates of the repository each declare the same `(x, y)` pair of
    `i32`; the model shares this one datatype between them. */
module Geometry {
  import opened Common

  /** An `(x, y)` grid cell. Equality is field-wise, as derived in the source. */
  datatype Coordinate = Coordinate(x: int, y: int)

  datatype Direction = Up | Down | Left | Right

  /** The unit offset the `match` in `add` builds for each direction. */
  function Delta(d: Direction): (r: Coordinate)
    ensures r.x * r.x + r.y * r.y == 1
  {
    match d
    case Up => Coordinate(0, 1)
    case Down => Coordinate(0, -1)
    case Left => Coordinate(-1, 0)
    case Right => Coordinate(1, 0)
  }

  /** `coordinate + direction`. */
  function Translate(c: Coordinate, d: Direction): (r: Coordinate)
    ensures r != c
    ensures r.x == c.x || r.y == c.y
  {
    Coordinate(c.x + Delta(d).x, c.y + Delta(d).y)
  }

  /** The direction that undoes `d`. */
  function Opposite(d: Direction): (r: Direction)
    ensures r != d
  {
    match d
    case Up => Down
    case Down => Up
    case Left => Right
    case Right => Left
  }

  /** Up moves one row towards larger `y`, Down towards smaller `y`, Left one
      column towards smaller `x` and Right towards larger `x`. */
  lemma TranslateCases(c: Coordinate)
    ensures Translate(c, Up) == Coordinate(c.x, c.y + 1)
    ensures Translate(c, Down) == Coordinate(c.x, c.y - 1)
    ensures Translate(c, Left) == Coordinate(c.x - 1, c.y)
    ensures Translate(c, Right) == Coordinate(c.x + 1, c.y)
  {
  }

  /** Moving one way and then back returns to the start; in particular
      `(c + Up) + Down == c` and `(c + Left) + Right == c`. */
  lemma TranslateOpposite(c: Coordinate, d: Direction)
    ensures Translate(Translate(c, d), Opposite(d)) == c
    ensures Translate(Translate(c, Opposite(d)), d) == c
  {
  }

  /** The four directions reach four pairwise distinct neighbours. */
  lemma NeighboursDistinct(c: Coordinate, d1: Direction, d2: Direction)
    ensures Translate(c, d1) == Translate(c, d2) <==> d1 == d2
  {
  }

  /** `manhattan`: the grid distance between two cells. */
  function Manhattan(a: Coordinate, b: Coordinate): int
  {
    Abs(a.x - b.x) + Abs(a.y - b.y)
  }

  /** The distance is never negative, does not depend on the order of its
      arguments and is zero exactly between equal cells. */
  lemma ManhattanIsMetric(a: Coordinate, b: Coordinate, c: Coordinate)
    ensures Manhattan(a, b) >= 0
    ensures Manhattan(a, b) == Manhattan(b, a)
    ensures Manhattan(a, b) == 0 <==> a == b
    ensures Manhattan(a, c) <= Manhattan(a, b) + Manhattan(b, c)
  {
  }

  /** Translating by any direction moves exactly one step away from the
      start, and changes the distance to any other cell by exactly one. */
  lemma TranslateIsUnitStep(c: Coordinate, d: Direction, t: Coordinate)
    ensures Manhattan(c, Translate(c, d)) == 1
    ensures Manhattan(Translate(c, d), t) == Manhattan(c, t) + 1 ||
            Manhattan(Translate(c, d), t) == Manhattan(c, t) - 1
  {
  }

  /** The derived `Ord` of the source: compare `x`, then `y`. */
  predicate CoordinateLess(a: Coordinate, b: Coordinate)
  {
    a.x < b.x || (a.x == b.x && a.y < b.y)
  }

  /** The derived ordering is a strict total order agreeing with field-wise
      equality. */
  lemma CoordinateLessIsStrictTotal(a: Coordinate, b: Coordinate, c: Coordinate)
    ensures !CoordinateLess(a, a)
    ensures CoordinateLess(a, b) && CoordinateLess(b, c) ==> CoordinateLess(a, c)
    ensures CoordinateLess(a, b) || a == b || CoordinateLess(b, a)
    ensures CoordinateLess(a, b) ==> !CoordinateLess(b, a)
  {
  }
}
