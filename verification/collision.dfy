/**
 * Axis-aligned bounding-box collision against the solid tiles of a `TileMap`,
 * and movement that resolves the X axis before the Y axis. Positions and sizes
 * are pixels at render scale; JavaScript numbers are modelled as reals.
 */
module Collision {
  import TileMap

  /** `EngineConfig.renderedTileSize` as a real. */
  const T: real := TileMap.RENDERED_TILE_SIZE as real

  /** The column and row span `isCollidingWithTiles` scans for a box. */
  function Left(x: real): int { (x / T).Floor }
  function Right(x: real, w: real): int { ((x + w - 1.0) / T).Floor }
  function Top(y: real): int { (y / T).Floor }
  function Bottom(y: real, h: real): int { ((y + h - 1.0) / T).Floor }

  /** Some cell of columns `col..right` in `row` is solid. */
  predicate SolidInRow(m: TileMap.Map, row: int, col: int, right: int)
    requires TileMap.Valid(m)
    ensures SolidInRow(m, row, col, right) <==>
      exists c :: col <= c <= right && TileMap.IsSolid(m, c, row)
    decreases right - col
  {
    col <= right && (TileMap.IsSolid(m, col, row) || SolidInRow(m, row, col + 1, right))
  }

  /** Some cell of rows `row..bottom`, columns `left..right` is solid. */
  predicate SolidInRect(m: TileMap.Map, row: int, bottom: int, left: int, right: int)
    requires TileMap.Valid(m)
    ensures SolidInRect(m, row, bottom, left, right) <==>
      exists r, c :: row <= r <= bottom && left <= c <= right && TileMap.IsSolid(m, c, r)
    decreases bottom - row
  {
    row <= bottom && (SolidInRow(m, row, left, right) || SolidInRect(m, row + 1, bottom, left, right))
  }

  /** The box at (x, y) of size w x h touches a solid cell of its scanned span. */
  predicate Colliding(m: TileMap.Map, x: real, y: real, w: real, h: real)
    requires TileMap.Valid(m)
  {
    SolidInRect(m, Top(y), Bottom(y, h), Left(x), Right(x, w))
  }

  /**
   * The scanned columns are exactly those whose left edge is at most x + w - 1
   * and whose right edge lies beyond x (and likewise for rows): the box is
   * treated as covering the pixels x .. x + w - 1.
   */
  lemma SpanIsOverlap(x: real, w: real, col: int)
    ensures Left(x) <= col <= Right(x, w) <==>
      (col as real) * T <= x + w - 1.0 && x < (col as real) * T + T
  {
    FloorLe(x / T, col);
    FloorGe((x + w - 1.0) / T, col);
  }

  lemma FloorLe(v: real, k: int)
    ensures v.Floor <= k <==> v < (k as real) + 1.0
  {
  }

  lemma FloorGe(v: real, k: int)
    ensures k <= v.Floor <==> (k as real) <= v
  {
  }

  /** `isCollidingWithTiles`: the row-by-row, column-by-column scan with early exit. */
  method IsCollidingWithTiles(m: TileMap.Map, x: real, y: real, w: real, h: real) returns (r: bool)
    requires TileMap.Valid(m)
    ensures r <==> exists row, col :: Top(y) <= row <= Bottom(y, h) && Left(x) <= col <= Right(x, w)
                                      && TileMap.IsSolid(m, col, row)
    ensures r == Colliding(m, x, y, w, h)
  {
    var left, right := Left(x), Right(x, w);
    var top, bottom := Top(y), Bottom(y, h);
    var row := top;
    while row <= bottom
      invariant top <= row && (top <= bottom ==> row <= bottom + 1)
      invariant forall r0, c0 :: top <= r0 < row && left <= c0 <= right ==> !TileMap.IsSolid(m, c0, r0)
      decreases bottom - row
    {
      var col := left;
      while col <= right
        invariant left <= col && (left <= right ==> col <= right + 1)
        invariant forall c0 :: left <= c0 < col ==> !TileMap.IsSolid(m, c0, row)
        decreases right - col
      {
        if TileMap.IsSolid(m, col, row) {
          return true;
        }
        col := col + 1;
      }
      row := row + 1;
    }
    return false;
  }

  /** A position in pixels. */
  datatype Pos = Pos(x: real, y: real)

  /**
   * `moveWithCollision`: X is tried alone at (x + dx, y); Y is then tried at the
   * already-resolved X. Each axis moves by its whole delta or not at all.
   */
  function MoveWithCollision(m: TileMap.Map, x: real, y: real, dx: real, dy: real, w: real, h: real): (r: Pos)
    requires TileMap.Valid(m)
    ensures r.x == x + dx || r.x == x
    ensures r.y == y + dy || r.y == y
    ensures !Colliding(m, x + dx, y, w, h) ==> r.x == x + dx
    ensures Colliding(m, x + dx, y, w, h) ==> r.x == x
    ensures !Colliding(m, r.x, y + dy, w, h) ==> r.y == y + dy
    ensures Colliding(m, r.x, y + dy, w, h) ==> r.y == y
    ensures !Colliding(m, x, y, w, h) ==> !Colliding(m, r.x, r.y, w, h)
  {
    var newX := if !Colliding(m, x + dx, y, w, h) then x + dx else x;
    var newY := if !Colliding(m, newX, y + dy, w, h) then y + dy else y;
    Pos(newX, newY)
  }

  /** Sliding: with X blocked and Y free, only Y changes. */
  lemma Sliding(m: TileMap.Map, x: real, y: real, dx: real, dy: real, w: real, h: real)
    requires TileMap.Valid(m)
    requires Colliding(m, x + dx, y, w, h) && !Colliding(m, x, y + dy, w, h)
    ensures MoveWithCollision(m, x, y, dx, dy, w, h) == Pos(x, y + dy)
  {
  }

  /** A zero delta leaves the position unchanged, colliding or not. */
  lemma ZeroDelta(m: TileMap.Map, x: real, y: real, w: real, h: real)
    requires TileMap.Valid(m)
    ensures MoveWithCollision(m, x, y, 0.0, 0.0, w, h) == Pos(x, y)
  {
  }
}
