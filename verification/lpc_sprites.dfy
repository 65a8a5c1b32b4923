/**
 * The typed engine's sprite helpers: the cell of a walking frame in a
 * standard LPC character sheet, and the source rectangle of a tile in a
 * tileset. Loading the sheet image is not modelled.
 */
module LpcSprites {
  import opened Wrappers
  import SpriteAtlas

  datatype LpcDirection = Down | Left | Right | Up

  /** A cell of an LPC sheet: row, column and the frame size in pixels. */
  datatype Frame = Frame(row: int, col: int, width: int, height: int)

  /** A source rectangle in a tileset. */
  datatype TileRect = TileRect(sx: int, sy: int, sw: int, sh: int)

  const FRAME_SIZE: int := 64
  const FRAMES_PER_ROW: int := 9
  const DEFAULT_TILE_SIZE: int := 32

  /** The walk-cycle row of each direction. */
  function DirectionRow(direction: LpcDirection): (row: int)
    ensures 8 <= row <= 11
  {
    match direction
    case Down => 10
    case Left => 9
    case Right => 11
    case Up => 8
  }

  /** The direction whose walk cycle is drawn in `row`, if any. */
  function RowDirection(row: int): Option<LpcDirection>
  {
    if row == 10 then Some(Down)
    else if row == 9 then Some(Left)
    else if row == 11 then Some(Right)
    else if row == 8 then Some(Up)
    else None
  }

  /** Each direction has its own row, so the row tells the direction back. */
  lemma RowIdentifiesDirection(direction: LpcDirection, row: int)
    ensures DirectionRow(direction) == row <==> RowDirection(row) == Some(direction)
  {
  }

  /** `getCharacterFrame(direction, frame)`: column `frame % 9` of the direction's row, 64 by 64. */
  function GetCharacterFrame(direction: LpcDirection, frame: int): (r: Frame)
    ensures RowDirection(r.row) == Some(direction)
    ensures r.width == FRAME_SIZE && r.height == FRAME_SIZE
    ensures frame >= 0 ==> 0 <= r.col < FRAMES_PER_ROW && (frame - r.col) % FRAMES_PER_ROW == 0
    ensures frame < 0 ==> -FRAMES_PER_ROW < r.col <= 0
  {
    Frame(DirectionRow(direction), SpriteAtlas.JsRem(frame, FRAMES_PER_ROW), FRAME_SIZE, FRAME_SIZE)
  }

  /** The walk cycle repeats every nine frames. */
  lemma CharacterFramePeriodic(direction: LpcDirection, frame: int)
    requires frame >= 0
    ensures GetCharacterFrame(direction, frame + FRAMES_PER_ROW) == GetCharacterFrame(direction, frame)
  {
  }

  /** The tile size in effect: the argument, or 32 when it is omitted. */
  function SizeOrDefault(tileSize: Option<int>): int
  {
    if tileSize.Some? then tileSize.value else DEFAULT_TILE_SIZE
  }

  /** `getTile(tileX, tileY, tileSize = 32)`: the square of side `tileSize` at tile (tileX, tileY). */
  function GetTile(tileX: int, tileY: int, tileSize: Option<int>): (r: TileRect)
    ensures r.sw == r.sh == SizeOrDefault(tileSize)
  {
    var size := SizeOrDefault(tileSize);
    TileRect(tileX * size, tileY * size, size, size)
  }

  /** The tile a rectangle came from, read back from its corner and size. */
  function TileOf(r: TileRect): (int, int)
    requires r.sw > 0 && r.sh > 0
  {
    (r.sx / r.sw, r.sy / r.sh)
  }

  /** With a positive tile size, the rectangle's corner gives the tile back. */
  lemma GetTileRecoversTile(tileX: int, tileY: int, tileSize: Option<int>)
    requires SizeOrDefault(tileSize) > 0
    ensures TileOf(GetTile(tileX, tileY, tileSize)) == (tileX, tileY)
  {
    var size := SizeOrDefault(tileSize);
    MulDivCancel(tileX, size);
    MulDivCancel(tileY, size);
  }

  lemma MulDivCancel(a: int, b: int)
    requires b > 0
    ensures (a * b) / b == a
  {
    var q, m := (a * b) / b, (a * b) % b;
    assert a * b == q * b + m && 0 <= m < b;
    var d := a - q;
    assert d * b == a * b - q * b;
    assert d * b == m;
  }

  /** Neighbouring tiles sit one tile size apart and do not overlap. */
  lemma AdjacentTilesAbut(tileX: int, tileY: int, tileSize: Option<int>)
    ensures GetTile(tileX + 1, tileY, tileSize).sx == GetTile(tileX, tileY, tileSize).sx + GetTile(tileX, tileY, tileSize).sw
    ensures GetTile(tileX, tileY + 1, tileSize).sy == GetTile(tileX, tileY, tileSize).sy + GetTile(tileX, tileY, tileSize).sh
  {
  }
}
