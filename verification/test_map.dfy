/**
 * The typed engine's 20x15 test map and its spawn point, a concrete instance
 * of `TileMap` for scenario lemmas.
 */
module TestMap {
  import opened Wrappers
  import TileMap
  import Collision

  const G: int := TileMap.GRASS
  const W: int := TileMap.WALL
  const P: int := TileMap.PATH
  const O: int := TileMap.WATER

  const WIDTH: int := 20
  const HEIGHT: int := 15

  /** The tile array, written row by row as in the layout. */
  const Rows: seq<seq<int>> := [
    // row 0: top border
    [W, W, W, W, W, W, W, W, W, W, W, W, W, W, W, W, W, W, W, W],
    // row 1: open grass
    [W, G, G, G, G, G, G, G, G, G, G, G, G, G, G, G, G, G, G, W],
    // row 2: open grass
    [W, G, G, G, G, G, G, G, G, G, G, G, G, G, G, G, G, G, G, W],
    // row 3: path starts
    [W, G, G, G, P, P, P, P, G, G, G, G, G, G, G, G, G, G, G, W],
    // row 4: path and wall structure
    [W, G, G, G, P, G, G, P, G, G, G, W, W, W, W, G, G, G, G, W],
    // row 5: path and wall structure
    [W, G, G, G, P, G, G, P, G, G, G, W, G, G, W, G, G, G, G, W],
    // row 6: path ends, wall structure
    [W, G, G, G, P, P, P, P, G, G, G, W, G, G, W, G, G, G, G, W],
    // row 7: wall structure ends
    [W, G, G, G, G, G, G, G, G, G, G, W, W, W, W, G, G, G, G, W],
    // row 8: open grass
    [W, G, G, G, G, G, G, G, G, G, G, G, G, G, G, G, G, G, G, W],
    // row 9: water starts
    [W, G, G, G, G, G, G, O, O, O, O, G, G, G, G, G, G, G, G, W],
    // row 10: water
    [W, G, G, G, G, G, G, O, O, O, O, G, G, G, G, G, G, G, G, W],
    // row 11: water ends
    [W, G, G, G, G, G, G, O, O, O, O, G, G, G, G, G, G, G, G, W],
    // row 12: open grass
    [W, G, G, G, G, G, G, G, G, G, G, G, G, G, G, G, G, G, G, W],
    // row 13: open grass
    [W, G, G, G, G, G, G, G, G, G, G, G, G, G, G, G, G, G, G, W],
    // row 14: bottom border
    [W, W, W, W, W, W, W, W, W, W, W, W, W, W, W, W, W, W, W, W]
  ]

  /** Player spawn in tile coordinates. */
  const SpawnX: int := 3
  const SpawnY: int := 3

  /** Row-major concatenation of equally long rows. */
  function Flatten(rows: seq<seq<int>>): seq<int>
  {
    if |rows| == 0 then [] else rows[0] + Flatten(rows[1..])
  }

  /** The flat array handed to the `TileMap` constructor. */
  const Tiles: seq<int> := Flatten(Rows)

  /** Every row of the layout is `WIDTH` tiles long. */
  predicate RowsOfWidth(rows: seq<seq<int>>)
  {
    forall k :: 0 <= k < |rows| ==> |rows[k]| == WIDTH
  }

  /** Flattening equally long rows puts cell (r, c) at `r * WIDTH + c`. */
  lemma {:induction false} FlattenIndex(rows: seq<seq<int>>, r: int, c: int)
    requires RowsOfWidth(rows)
    requires 0 <= r < |rows| && 0 <= c < WIDTH
    ensures |Flatten(rows)| == WIDTH * |rows|
    ensures Flatten(rows)[r * WIDTH + c] == rows[r][c]
    decreases |rows|
  {
    if r == 0 {
      FlattenLength(rows[1..]);
    } else {
      FlattenIndex(rows[1..], r - 1, c);
    }
  }

  lemma {:induction false} FlattenLength(rows: seq<seq<int>>)
    requires RowsOfWidth(rows)
    ensures |Flatten(rows)| == WIDTH * |rows|
    decreases |rows|
  {
    if |rows| > 0 {
      FlattenLength(rows[1..]);
    }
  }

  /** `testMapData` handed to the constructor: it has 300 tiles, so construction succeeds. */
  function TestMapData(): (m: TileMap.Map)
    ensures TileMap.New(WIDTH, HEIGHT, Tiles) == Success(m)
    ensures TileMap.Valid(m) && m.width == 20 && m.height == 15 && |m.tiles| == 300
  {
    FlattenLength(Rows);
    TileMap.Map(WIDTH, HEIGHT, Tiles)
  }

  /** Reading the constructed map returns the layout's cell. */
  lemma TileAt(col: int, row: int)
    requires 0 <= row < HEIGHT && 0 <= col < WIDTH
    ensures TileMap.GetTile(TestMapData(), col, row) == Rows[row][col]
  {
    FlattenIndex(Rows, row, col);
  }

  /** The four edges of the map are walls. */
  lemma BorderIsWall(col: int, row: int)
    requires 0 <= row < HEIGHT && 0 <= col < WIDTH
    requires row == 0 || row == HEIGHT - 1 || col == 0 || col == WIDTH - 1
    ensures TileMap.GetTile(TestMapData(), col, row) == TileMap.WALL
    ensures TileMap.IsSolid(TestMapData(), col, row)
  {
    TileAt(col, row);
  }

  /** Water covers exactly columns 7..10 of rows 9..11. */
  lemma WaterExactly(col: int, row: int)
    ensures TileMap.GetTile(TestMapData(), col, row) == TileMap.WATER <==>
            9 <= row <= 11 && 7 <= col <= 10
  {
    if 0 <= row < HEIGHT && 0 <= col < WIDTH {
      TileAt(col, row);
      if 9 <= row <= 11 {
        WaterRow(col, row);
      } else {
        DryRow(col, row);
      }
    }
  }

  lemma WaterRow(col: int, row: int)
    requires 9 <= row <= 11 && 0 <= col < WIDTH
    ensures Rows[row][col] == O <==> 7 <= col <= 10
  {
    assert Rows[row] == [W, G, G, G, G, G, G, O, O, O, O, G, G, G, G, G, G, G, G, W];
  }

  lemma DryRow(col: int, row: int)
    requires 0 <= row < HEIGHT && !(9 <= row <= 11) && 0 <= col < WIDTH
    ensures Rows[row][col] != O
  {
    if row < 9 {
      DryTopRow(col, row);
    } else {
      assert Rows[row][col] in {G, W};
    }
  }

  lemma DryTopRow(col: int, row: int)
    requires 0 <= row < 9 && 0 <= col < WIDTH
    ensures Rows[row][col] != O
  {
    assert Rows[row][col] in {G, W, P};
  }

  /** The spawn tile is grass, and a full-tile box standing on it collides with nothing. */
  lemma SpawnIsClear()
    ensures TileMap.GetTile(TestMapData(), SpawnX, SpawnY) == TileMap.GRASS
    ensures !TileMap.IsSolid(TestMapData(), SpawnX, SpawnY)
    ensures var x := (SpawnX as real) * Collision.T;
            var y := (SpawnY as real) * Collision.T;
            !Collision.Colliding(TestMapData(), x, y, Collision.T, Collision.T)
  {
    TileAt(SpawnX, SpawnY);
    var x := (SpawnX as real) * Collision.T;
    assert Collision.Left(x) == 3 && Collision.Right(x, Collision.T) == 3;
    assert Collision.Top(x) == 3 && Collision.Bottom(x, Collision.T) == 3;
  }
}
