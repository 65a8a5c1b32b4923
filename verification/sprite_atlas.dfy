/**
 * The vanilla engine's sprite-sheet lookups: named terrain and furniture
 * tiles in the town sheet, and the player's walking frames in the NPC sheet.
 * Loading the sheet images is not modelled; a lookup names the sheet it
 * draws from.
 */
module SpriteAtlas {
  import opened Wrappers

  /** A source rectangle in a sprite sheet. */
  datatype Coords = Coords(sx: int, sy: int, sw: int, sh: int)

  datatype Sheet = Town | Npcs

  /** What `get` and `getCharacterFrame` return: the sheet and the rectangle. */
  datatype Sprite = Sprite(image: Sheet, coords: Coords)

  const CHAR_WIDTH: int := 16
  const CHAR_HEIGHT: int := 32

  /** `TILE_COORDS`, in declaration order. */
  function TileCoords(): seq<(string, Coords)>
  {
    [("grass", Coords(16, 16, 16, 16)),
     ("path", Coords(80, 144, 16, 16)),
     ("flower", Coords(48, 48, 16, 16)),
     ("tree_trunk", Coords(32, 96, 16, 16)),
     ("tree_top", Coords(32, 80, 16, 16)),
     ("water", Coords(160, 304, 16, 16)),
     ("house_wall", Coords(64, 80, 16, 16)),
     ("house_roof", Coords(64, 64, 16, 16)),
     ("house_door", Coords(88, 88, 16, 16)),
     ("lab_wall", Coords(192, 208, 16, 16)),
     ("lab_roof", Coords(192, 192, 16, 16)),
     ("lab_door", Coords(216, 216, 16, 16)),
     ("floor", Coords(440, 96, 16, 16)),
     ("wall", Coords(440, 32, 16, 16)),
     ("door", Coords(488, 144, 16, 16)),
     ("stairs", Coords(520, 120, 16, 16)),
     ("table", Coords(472, 96, 16, 16)),
     ("chair", Coords(456, 112, 16, 16)),
     ("bookshelf", Coords(456, 48, 16, 16)),
     ("computer", Coords(504, 64, 16, 16)),
     ("sofa", Coords(520, 80, 16, 16)),
     ("tv", Coords(504, 48, 16, 16)),
     ("plant", Coords(488, 80, 16, 16)),
     ("rug", Coords(488, 112, 16, 16))]
  }

  /** Property lookup in a table of entries: the first entry with the key. */
  function Lookup<K(==), V(==)>(table: seq<(K, V)>, key: K): (r: Option<V>)
    ensures r.None? <==> forall i :: 0 <= i < |table| ==> table[i].0 != key
    ensures r.Some? ==> exists i :: 0 <= i < |table| && table[i] == (key, r.value) &&
                                   forall j :: 0 <= j < i ==> table[j].0 != key
  {
    if |table| == 0 then None
    else if table[0].0 == key then Some(table[0].1)
    else
      var r := Lookup(table[1..], key);
      if r.Some? then
        var i :| 0 <= i < |table[1..]| && table[1..][i] == (key, r.value) &&
                 forall j :: 0 <= j < i ==> table[1..][j].0 != key;
        assert table[i + 1] == (key, r.value);
        r
      else
        r
  }

  /** No key occurs twice in the table. */
  predicate DistinctKeys<K(==), V>(table: seq<(K, V)>)
  {
    forall i, j :: 0 <= i < j < |table| ==> table[i].0 != table[j].0
  }

  /** Looking up the key of an entry that no earlier entry shares finds that entry. */
  lemma LookupFindsFirst<K, V>(table: seq<(K, V)>, i: int)
    requires 0 <= i < |table|
    requires forall j :: 0 <= j < i ==> table[j].0 != table[i].0
    ensures Lookup(table, table[i].0) == Some(table[i].1)
  {
    var r := Lookup(table, table[i].0);
    assert r.Some?;
    var k :| 0 <= k < |table| && table[k] == (table[i].0, r.value) &&
             forall j :: 0 <= j < k ==> table[j].0 != table[i].0;
    assert k == i;
  }

  /** With distinct keys, looking up an entry's key finds that entry. */
  lemma LookupFindsEntry<K, V>(table: seq<(K, V)>, i: int)
    requires DistinctKeys(table) && 0 <= i < |table|
    ensures Lookup(table, table[i].0) == Some(table[i].1)
  {
    LookupFindsFirst(table, i);
  }

  /** `get(name)`: the town-sheet rectangle of a named tile, or null for an unknown name. */
  function Get(name: string): (r: Option<Sprite>)
    ensures r.Some? ==> r.value.image == Town
  {
    match Lookup(TileCoords(), name)
    case Some(c) => Some(Sprite(Town, c))
    case None => None
  }

  /** No tile before entry `i` has its name. */
  lemma TileNameNew(i: int)
    requires 0 <= i < |TileCoords()|
    ensures forall j :: 0 <= j < i ==> TileCoords()[j].0 != TileCoords()[i].0
  {
  }

  lemma TileNamesDistinct()
    ensures DistinctKeys(TileCoords())
  {
    forall i, j | 0 <= i < j < |TileCoords()|
      ensures TileCoords()[i].0 != TileCoords()[j].0
    {
      TileNameNew(j);
    }
  }

  /** Every declared tile name is found with its own rectangle; any other name gives null. */
  lemma GetFollowsTable(name: string)
    ensures (exists i :: 0 <= i < |TileCoords()| && TileCoords()[i].0 == name) <==> Get(name).Some?
    ensures forall i :: 0 <= i < |TileCoords()| && TileCoords()[i].0 == name ==>
              Get(name) == Some(Sprite(Town, TileCoords()[i].1))
  {
    TileNamesDistinct();
    forall i | 0 <= i < |TileCoords()| && TileCoords()[i].0 == name
      ensures Get(name) == Some(Sprite(Town, TileCoords()[i].1))
    {
      LookupFindsEntry(TileCoords(), i);
    }
  }

  // ---------------------------------------------------------------------
  // Character frames
  // ---------------------------------------------------------------------

  /**
   * JavaScript's `%` on integers: the remainder takes the sign of the
   * dividend. A zero result prints as "0" even when it is negative zero.
   */
  function JsRem(a: int, b: int): (r: int)
    requires b > 0
    ensures -b < r < b
    ensures a >= 0 ==> r == a % b
    ensures a < 0 ==> r <= 0 && -r == (-a) % b
  {
    if a >= 0 then a % b else -((-a) % b)
  }

  /**
   * `CHARACTER_COORDS`, keyed by the direction and frame parts of
   * `player_<direction>_<frame>`.
   */
  function CharacterCoords(): seq<((string, int), Coords)>
  {
    [(("down", 0), Coords(0, 1408, 16, 32)), (("down", 1), Coords(16, 1408, 16, 32)),
     (("down", 2), Coords(32, 1408, 16, 32)), (("down", 3), Coords(48, 1408, 16, 32)),
     (("left", 0), Coords(0, 1440, 16, 32)), (("left", 1), Coords(16, 1440, 16, 32)),
     (("left", 2), Coords(32, 1440, 16, 32)), (("left", 3), Coords(48, 1440, 16, 32)),
     (("right", 0), Coords(0, 1472, 16, 32)), (("right", 1), Coords(16, 1472, 16, 32)),
     (("right", 2), Coords(32, 1472, 16, 32)), (("right", 3), Coords(48, 1472, 16, 32)),
     (("up", 0), Coords(0, 1504, 16, 32)), (("up", 1), Coords(16, 1504, 16, 32)),
     (("up", 2), Coords(32, 1504, 16, 32)), (("up", 3), Coords(48, 1504, 16, 32))]
  }

  /** `getCharacterFrame(direction, frame)`: the entry for `frame % 4`, with the character size. */
  function GetCharacterFrame(direction: string, frame: int): (r: Option<Sprite>)
    ensures r.Some? ==> r.value.image == Npcs && r.value.coords.sw == CHAR_WIDTH && r.value.coords.sh == CHAR_HEIGHT
  {
    match Lookup(CharacterCoords(), (direction, JsRem(frame, 4)))
    case Some(c) => Some(Sprite(Npcs, c.(sw := CHAR_WIDTH, sh := CHAR_HEIGHT)))
    case None => None
  }

  /** The sheet row of each walking direction, or none. */
  function DirectionRow(direction: string): Option<int>
  {
    if direction == "down" then Some(0)
    else if direction == "left" then Some(1)
    else if direction == "right" then Some(2)
    else if direction == "up" then Some(3)
    else None
  }

  /** The direction drawn in each sheet row. */
  function DirectionName(row: int): string
  {
    if row == 0 then "down" else if row == 1 then "left" else if row == 2 then "right" else "up"
  }

  /** `DirectionRow` and `DirectionName` are inverse on the four rows. */
  lemma DirectionRowName(direction: string, row: int)
    ensures DirectionRow(direction) == Some(row) <==> 0 <= row < 4 && direction == DirectionName(row)
  {
  }

  /** The entry of the table at row `row` and column `k`. */
  lemma CharacterEntry(row: int, k: int)
    requires 0 <= row < 4 && 0 <= k < 4
    ensures var e := CharacterCoords()[4 * row + k];
            e.0 == (DirectionName(row), k) && e.1 == Coords(16 * k, 1408 + 32 * row, 16, 32)
  {
  }

  /** No entry before row `row`, column `k` carries its key. */
  lemma CharacterEarlierKeysDiffer(row: int, k: int)
    requires 0 <= row < 4 && 0 <= k < 4
    ensures forall j :: 0 <= j < 4 * row + k ==> CharacterCoords()[j].0 != (DirectionName(row), k)
  {
    forall j | 0 <= j < 4 * row + k
      ensures CharacterCoords()[j].0 != (DirectionName(row), k)
    {
      CharacterEntry(j / 4, j % 4);
    }
  }

  /**
   * The frames follow a grid: known directions and non-negative frames give
   * column `frame mod 4` of the direction's row, 16 by 32 pixels.
   */
  lemma CharacterFrameFormula(direction: string, frame: int)
    requires DirectionRow(direction).Some? && frame >= 0
    ensures var row := DirectionRow(direction).value;
            GetCharacterFrame(direction, frame) ==
              Some(Sprite(Npcs, Coords(16 * (frame % 4), 1408 + 32 * row, 16, 32)))
  {
    var row := DirectionRow(direction).value;
    var k := frame % 4;
    DirectionRowName(direction, row);
    CharacterEntry(row, k);
    CharacterEarlierKeysDiffer(row, k);
    LookupFindsFirst(CharacterCoords(), 4 * row + k);
  }

  /** Any direction other than the four walking ones gives null. */
  lemma UnknownDirectionIsNull(direction: string, frame: int)
    requires DirectionRow(direction).None?
    ensures GetCharacterFrame(direction, frame).None?
  {
    forall i | 0 <= i < |CharacterCoords()|
      ensures CharacterCoords()[i].0 != (direction, JsRem(frame, 4))
    {
      CharacterEntry(i / 4, i % 4);
      DirectionRowName(direction, i / 4);
    }
  }

  /** A negative frame that is not a multiple of four names no key, so it gives null. */
  lemma NegativeFrameIsNull(direction: string, frame: int)
    requires frame < 0 && frame % 4 != 0
    ensures GetCharacterFrame(direction, frame).None?
  {
    var k := JsRem(frame, 4);
    assert k < 0;
    forall i | 0 <= i < |CharacterCoords()|
      ensures CharacterCoords()[i].0 != (direction, k)
    {
      CharacterEntry(i / 4, i % 4);
    }
  }

  /** The animation repeats every four frames. */
  lemma CharacterFramePeriodic(direction: string, frame: int)
    requires frame >= 0
    ensures GetCharacterFrame(direction, frame + 4) == GetCharacterFrame(direction, frame)
  {
    assert JsRem(frame + 4, 4) == JsRem(frame, 4);
  }
}
