/**
 * The typed engine's tile map: a flat, row-major array of tile codes that is
 * validated once at construction and never mutated afterwards. Cells outside
 * the map read as EMPTY and are therefore passable.
 */
module TileMap {
  import opened Wrappers

  /** Tile codes of the `TileType` enumeration. */
  const EMPTY: int := 0
  const GRASS: int := 1
  const WALL: int := 2
  const WATER: int := 3
  const PATH: int := 4

  /** Source tile size, render scale and the rendered tile size (32 * 2). */
  const TILE_SIZE: int := 32
  const SCALE: int := 2
  const RENDERED_TILE_SIZE: int := TILE_SIZE * SCALE

  /** The set of tile codes that block movement. */
  const SOLID_TILES: set<int> := {WALL, WATER}

  /**
   * The map's fields. Only values built by `New` exist in the program, so
   * every query below assumes `Valid`.
   */
  datatype Map = Map(width: int, height: int, tiles: seq<int>)

  ghost predicate Valid(m: Map) {
    |m.tiles| == m.width * m.height
  }

  /** The construction-time error, carrying the two lengths that disagree. */
  datatype SizeError = SizeError(length: int, expected: int)

  /** The constructor: it throws unless the array has exactly width*height entries. */
  function New(width: int, height: int, tiles: seq<int>): (r: Result<Map, SizeError>)
    ensures r.Success? <==> |tiles| == width * height
    ensures r.Success? ==> Valid(r.value)
    ensures r.Success? ==> r.value.width == width && r.value.height == height && r.value.tiles == tiles
    ensures r.Failure? ==> r.error == SizeError(|tiles|, width * height)
  {
    if |tiles| != width * height then Failure(SizeError(|tiles|, width * height))
    else Success(Map(width, height, tiles))
  }

  predicate InBounds(m: Map, col: int, row: int) {
    0 <= col < m.width && 0 <= row < m.height
  }

  /** The row-major index of an in-range cell; it lies inside the tile array. */
  function CellIndex(m: Map, col: int, row: int): (i: nat)
    requires Valid(m) && InBounds(m, col, row)
    ensures i == row * m.width + col && i < |m.tiles|
  {
    IndexInRange(m, col, row);
    row * m.width + col
  }

  lemma IndexInRange(m: Map, col: int, row: int)
    requires Valid(m) && InBounds(m, col, row)
    ensures 0 <= row * m.width + col < |m.tiles|
  {
    assert row * m.width <= (m.height - 1) * m.width by {
      MulMonotone(row, m.height - 1, m.width);
    }
    assert (m.height - 1) * m.width + m.width == m.height * m.width;
  }

  lemma MulMonotone(a: int, b: int, c: int)
    requires a <= b && 0 <= c
    ensures a * c <= b * c
  {
    assert b * c - a * c == (b - a) * c;
  }

  /** `getTile`: EMPTY outside the map, otherwise the row-major entry. */
  function GetTile(m: Map, col: int, row: int): (t: int)
    requires Valid(m)
    ensures !InBounds(m, col, row) ==> t == EMPTY
    ensures InBounds(m, col, row) ==> t == m.tiles[CellIndex(m, col, row)]
  {
    if col < 0 || col >= m.width || row < 0 || row >= m.height then EMPTY
    else m.tiles[CellIndex(m, col, row)]
  }

  /**
   * `isSolid`: the tile read at the cell is in `SOLID_TILES`. Solidity is
   * exactly "in range and WALL or WATER"; beyond the edge nothing is solid.
   */
  predicate IsSolid(m: Map, col: int, row: int)
    requires Valid(m)
    ensures IsSolid(m, col, row) <==>
      InBounds(m, col, row) && m.tiles[CellIndex(m, col, row)] in {WALL, WATER}
    ensures !InBounds(m, col, row) ==> !IsSolid(m, col, row)
  {
    GetTile(m, col, row) in SOLID_TILES
  }

  /** `getPixelWidth` / `getPixelHeight`. */
  function PixelWidth(m: Map): (w: int)
    ensures w == m.width * 64
  {
    m.width * RENDERED_TILE_SIZE
  }

  function PixelHeight(m: Map): (h: int)
    ensures h == m.height * 64
  {
    m.height * RENDERED_TILE_SIZE
  }
}
