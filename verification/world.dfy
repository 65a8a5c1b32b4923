/**
 * The vanilla engine's world: a 40x30 campus and four building interiors,
 * each made of four equally sized layers (ground, objects, collision,
 * interact), and the current location that building transitions switch.
 * The source keeps each layer as a flat array indexed `y * width + x`; here a
 * layer is the same array cut into rows, so cell (x, y) is `layer[y][x]`.
 * Outside a map nothing is walkable (the opposite policy to `TileMap`).
 */
module World {
  import opened Wrappers

  /** The `TILES` codes. */
  const GRASS: int := 0
  const PATH: int := 1
  const WATER: int := 2
  const FLOWER: int := 3
  const TREE: int := 4
  const TREE_TOP: int := 5
  const WALL: int := 6
  const ROOF: int := 7
  const DOOR: int := 8
  const WINDOW: int := 9
  const SPIRE: int := 10
  const SIGN: int := 11
  const GATE: int := 12
  const LAMPPOST: int := 13
  const BENCH_LEFT: int := 14
  const BENCH_RIGHT: int := 15
  const IVY: int := 16
  const COBBLE: int := 17
  const WOOD_FLOOR: int := 20
  const INT_WALL: int := 21
  const BOOKSHELF: int := 22
  const DESK: int := 23
  const COMPUTER: int := 24
  const PODIUM: int := 25
  const LAB_BENCH: int := 26
  const CHAIR: int := 27

  /** Campus size in tiles and the tile size in pixels. */
  const WIDTH: int := 40
  const HEIGHT: int := 30
  const TILE_SIZE: int := 16

  datatype Point = Point(x: int, y: int)
  datatype Rect = Rect(x: int, y: int, w: int, h: int)

  /** The keys of `buildings` (and of `interiorMaps`). */
  datatype BuildingId = OfficeId | LibraryId | LectureHallId | LabId

  /** The key string of each building. */
  function IdName(b: BuildingId): string
  {
    match b
    case OfficeId => "office"
    case LibraryId => "library"
    case LectureHallId => "lectureHall"
    case LabId => "lab"
  }

  /** Looking a string up among the building keys. */
  function ParseBuilding(s: string): (r: Option<BuildingId>)
    ensures r.Some? ==> IdName(r.value) == s
    ensures r.None? ==> forall b :: IdName(b) != s
  {
    if s == "office" then Some(OfficeId)
    else if s == "library" then Some(LibraryId)
    else if s == "lectureHall" then Some(LectureHallId)
    else if s == "lab" then Some(LabId)
    else None
  }

  /** A `buildings` entry: display name, content key, entrance tile and footprint. */
  datatype Building = Building(name: string, contentKey: string, entrance: Point, tiles: Rect)

  function BuildingInfo(b: BuildingId): Building
  {
    match b
    case OfficeId => Building("Sam's Office", "about", Point(8, 12), Rect(6, 9, 5, 4))
    case LibraryId => Building("King's College Library", "publications", Point(20, 18), Rect(17, 14, 7, 5))
    case LectureHallId => Building("Senate House", "media", Point(32, 12), Rect(29, 9, 6, 4))
    case LabId => Building("Research Lab", "research", Point(20, 7), Rect(17, 4, 7, 4))
  }

  /**
   * The name each `buildBuilding` call passes; the door and entrance records
   * carry it, and it is not always the `buildings` name.
   */
  function DoorName(b: BuildingId): string
  {
    match b
    case OfficeId => "Sam's Office"
    case LibraryId => "Library"
    case LectureHallId => "Lecture Hall"
    case LabId => "Research Lab"
  }

  /**
   * An interact-layer record, one constructor per `type`. The world only
   * creates the first eight; `Talk`, `Talks` and `Other` are the remaining
   * types the building dialogs dispatch on.
   */
  datatype Interaction =
    | Door(building: string, name: string)
    | Entrance(building: string, name: string)
    | Sign(text: string, forBuilding: Option<string>)
    | Object(id: string, content: string)
    | Publication(index: int)
    | Media(index: int)
    | Research(index: int)
    | Exit
    | Talk(index: int)
    | Talks(index: int)
    | Other(kind: string)

  type Grid<T> = seq<seq<T>>

  predicate IsGrid<T>(g: Grid<T>, w: int, h: int)
  {
    |g| == h && forall y :: 0 <= y < h ==> |g[y]| == w
  }

  datatype Layers = Layers(ground: Grid<int>, objects: Grid<int>, collision: Grid<int>,
                           interact: Grid<Option<Interaction>>)

  predicate Shaped(l: Layers, w: int, h: int)
  {
    IsGrid(l.ground, w, h) && IsGrid(l.objects, w, h) && IsGrid(l.collision, w, h) && IsGrid(l.interact, w, h)
  }

  /** A map: its size and its layers. Interiors add a name and a spawn tile. */
  datatype GameMap = GameMap(width: int, height: int, layers: Layers)
  datatype Interior = Interior(name: string, spawn: Point, layout: GameMap)

  predicate WellFormed(m: GameMap)
  {
    m.width >= 0 && m.height >= 0 && Shaped(m.layers, m.width, m.height)
  }

  predicate InMap(m: GameMap, x: int, y: int)
  {
    0 <= x < m.width && 0 <= y < m.height
  }

  // ---------------------------------------------------------------------
  // Campus generation
  // ---------------------------------------------------------------------

  predicate InCampus(x: int, y: int)
  {
    0 <= x < WIDTH && 0 <= y < HEIGHT
  }

  /** A layer filled with one value. */
  function Fill<T>(w: nat, h: nat, v: T): (g: Grid<T>)
    ensures IsGrid(g, w, h)
    ensures forall y, x :: 0 <= y < h && 0 <= x < w ==> g[y][x] == v
  {
    seq(h, y => seq(w, x => v))
  }

  /** The layers before anything is drawn: grass, no objects, nothing blocked, no records. */
  function BlankCampus(): (l: Layers)
    ensures Shaped(l, WIDTH, HEIGHT)
    ensures forall y, x :: InCampus(x, y) ==> CellAt(l, x, y) == Cell(GRASS, -1, 0, None)
  {
    Layers(Fill(WIDTH, HEIGHT, GRASS), Fill(WIDTH, HEIGHT, -1), Fill(WIDTH, HEIGHT, 0), Fill(WIDTH, HEIGHT, None))
  }

  /** Everything stored at one campus cell. */
  datatype Cell = Cell(ground: int, objectTile: int, collision: int, interact: Option<Interaction>)

  function CellAt(l: Layers, x: int, y: int): Cell
    requires Shaped(l, WIDTH, HEIGHT) && InCampus(x, y)
  {
    Cell(l.ground[y][x], l.objects[y][x], l.collision[y][x], l.interact[y][x])
  }

  /** One write of a layer at a campus cell. */
  function Put<T>(g: Grid<T>, x: int, y: int, v: T): (r: Grid<T>)
    requires IsGrid(g, WIDTH, HEIGHT) && InCampus(x, y)
    ensures IsGrid(r, WIDTH, HEIGHT)
    ensures forall cy, cx :: InCampus(cx, cy) ==> r[cy][cx] == if cx == x && cy == y then v else g[cy][cx]
  {
    g[y := g[y][x := v]]
  }

  /**
   * The arguments of one `setTile` call: `ground` None stands for `null`,
   * `objectTile` -1 and `data` None for "leave as is".
   */
  datatype SetCmd = SetCmd(x: int, y: int, ground: Option<int>, objectTile: int, blocked: bool,
                           data: Option<Interaction>)

  /**
   * `setTile`: ignored off the campus; otherwise it overwrites the layers its
   * arguments name at that one cell. Blocking can be added but never removed.
   */
  function SetTile(l: Layers, c: SetCmd): (r: Layers)
    requires Shaped(l, WIDTH, HEIGHT)
    ensures Shaped(r, WIDTH, HEIGHT)
    ensures !InCampus(c.x, c.y) ==> r == l
    ensures forall cy, cx :: InCampus(cx, cy) && !(cx == c.x && cy == c.y) ==> CellAt(r, cx, cy) == CellAt(l, cx, cy)
    ensures InCampus(c.x, c.y) ==>
              var before := CellAt(l, c.x, c.y);
              CellAt(r, c.x, c.y) ==
                Cell(if c.ground.Some? then c.ground.value else before.ground,
                     if c.objectTile != -1 then c.objectTile else before.objectTile,
                     if c.blocked then 1 else before.collision,
                     if c.data.Some? then c.data else before.interact)
  {
    if c.x < 0 || c.x >= WIDTH || c.y < 0 || c.y >= HEIGHT then l
    else
      var ground := if c.ground.Some? then Put(l.ground, c.x, c.y, c.ground.value) else l.ground;
      var objects := if c.objectTile != -1 then Put(l.objects, c.x, c.y, c.objectTile) else l.objects;
      var collision := if c.blocked then Put(l.collision, c.x, c.y, 1) else l.collision;
      var interact := if c.data.Some? then Put(l.interact, c.x, c.y, c.data) else l.interact;
      Layers(ground, objects, collision, interact)
  }

  /** No command of `cmds` names cell (x, y). */
  predicate Untouched(cmds: seq<SetCmd>, x: int, y: int)
  {
    forall i :: 0 <= i < |cmds| ==> !(cmds[i].x == x && cmds[i].y == y)
  }

  /** Some command of `cmds` blocks cell (x, y). */
  predicate BlockedBy(cmds: seq<SetCmd>, x: int, y: int)
  {
    exists i :: 0 <= i < |cmds| && cmds[i].x == x && cmds[i].y == y && cmds[i].blocked
  }

  /**
   * `setTile` applied to each command in order. Cells no command names are
   * unchanged, and a cell ends up walkable exactly when it started walkable
   * and no command blocked it.
   */
  function ApplyAll(l: Layers, cmds: seq<SetCmd>): (r: Layers)
    requires Shaped(l, WIDTH, HEIGHT)
    ensures Shaped(r, WIDTH, HEIGHT)
    ensures forall cy, cx :: InCampus(cx, cy) && Untouched(cmds, cx, cy) ==> CellAt(r, cx, cy) == CellAt(l, cx, cy)
    ensures forall cy, cx :: InCampus(cx, cy) ==>
              (r.collision[cy][cx] == 0 <==> l.collision[cy][cx] == 0 && !BlockedBy(cmds, cx, cy))
    decreases |cmds|
  {
    if |cmds| == 0 then l
    else
      TailFacts(cmds);
      ApplyAll(SetTile(l, cmds[0]), cmds[1..])
  }

  /** How `Untouched` and `BlockedBy` split over the first command and the rest. */
  lemma TailFacts(cmds: seq<SetCmd>)
    requires |cmds| > 0
    ensures forall cy, cx :: InCampus(cx, cy) ==>
              (BlockedBy(cmds, cx, cy) <==>
                (cmds[0].x == cx && cmds[0].y == cy && cmds[0].blocked) || BlockedBy(cmds[1..], cx, cy))
    ensures forall cy, cx :: Untouched(cmds, cx, cy) ==> Untouched(cmds[1..], cx, cy)
  {
    assert forall cy, cx :: InCampus(cx, cy) ==>
             (BlockedBy(cmds, cx, cy) <==>
               (cmds[0].x == cx && cmds[0].y == cy && cmds[0].blocked) || BlockedBy(cmds[1..], cx, cy)) by {
      forall cy, cx | InCampus(cx, cy) && BlockedBy(cmds, cx, cy)
        ensures (cmds[0].x == cx && cmds[0].y == cy && cmds[0].blocked) || BlockedBy(cmds[1..], cx, cy)
      {
        var i :| 0 <= i < |cmds| && cmds[i].x == cx && cmds[i].y == cy && cmds[i].blocked;
        if i > 0 {
          assert cmds[1..][i - 1] == cmds[i];
        }
      }
      forall cy, cx | InCampus(cx, cy) && BlockedBy(cmds[1..], cx, cy)
        ensures BlockedBy(cmds, cx, cy)
      {
        var i :| 0 <= i < |cmds[1..]| && cmds[1..][i].x == cx && cmds[1..][i].y == cy && cmds[1..][i].blocked;
        assert cmds[i + 1] == cmds[1..][i];
      }
    }
    assert forall cy, cx :: Untouched(cmds, cx, cy) ==> Untouched(cmds[1..], cx, cy) by {
      forall cy, cx | Untouched(cmds, cx, cy)
        ensures Untouched(cmds[1..], cx, cy)
      {
        forall i | 0 <= i < |cmds[1..]|
          ensures !(cmds[1..][i].x == cx && cmds[1..][i].y == cy)
        {
          assert cmds[1..][i] == cmds[i + 1];
        }
      }
    }
  }

  /** The three vertical paths' columns. */
  const VERTICAL_PATH_COLUMNS: seq<int> := [8, 20, 32]

  /** The two horizontal path rows, written column by column. */
  function PathCmds(): seq<SetCmd>
  {
    seq(2 * WIDTH, i => SetCmd(i / 2, 13 + i % 2, Some(PATH), -1, false, None))
  }

  /** The vertical paths over rows 5..24, three columns per row. */
  function VerticalPathCmds(): seq<SetCmd>
  {
    seq(60, i requires 0 <= i < 60 => SetCmd(VERTICAL_PATH_COLUMNS[i % 3], 5 + i / 3, Some(PATH), -1, false, None))
  }

  /** The river: columns 0..2 of every row, water and blocked. */
  function RiverCmds(): seq<SetCmd>
  {
    seq(3 * HEIGHT, i => SetCmd(i % 3, i / 3, Some(WATER), -1, true, None))
  }

  const FLOWER_POSITIONS: seq<Point> := [
    Point(5, 16), Point(6, 17), Point(10, 5), Point(11, 6), Point(24, 20), Point(25, 21),
    Point(35, 16), Point(36, 17), Point(14, 10), Point(15, 11), Point(26, 10), Point(27, 11)
  ]

  function FlowerCmds(): seq<SetCmd>
  {
    seq(|FLOWER_POSITIONS|, i requires 0 <= i < |FLOWER_POSITIONS| =>
      SetCmd(FLOWER_POSITIONS[i].x, FLOWER_POSITIONS[i].y, Some(FLOWER), -1, false, None))
  }

  const TREE_POSITIONS: seq<Point> := [
    Point(4, 4), Point(4, 20), Point(4, 25), Point(12, 4), Point(12, 20), Point(12, 25),
    Point(24, 4), Point(24, 24), Point(28, 20), Point(36, 4), Point(36, 20), Point(36, 25),
    Point(14, 17), Point(26, 17), Point(38, 10), Point(38, 16)
  ]

  /** Each tree: a blocked trunk on grass, then a blocked top one row up with the ground kept. */
  function TreeCmds(): seq<SetCmd>
  {
    seq(2 * |TREE_POSITIONS|, i requires 0 <= i < 2 * |TREE_POSITIONS| =>
      if i % 2 == 0 then SetCmd(TREE_POSITIONS[i / 2].x, TREE_POSITIONS[i / 2].y, Some(GRASS), TREE, true, None)
      else SetCmd(TREE_POSITIONS[i / 2].x, TREE_POSITIONS[i / 2].y - 1, None, TREE_TOP, true, None))
  }

  /** The four building signs and the welcome sign, all blocked. */
  const SignCmds: seq<SetCmd> := [
    SetCmd(7, 13, Some(GRASS), SIGN, true, Some(Sign("Sam's Office - About Me", Some("office")))),
    SetCmd(19, 19, Some(GRASS), SIGN, true, Some(Sign("King's College Library - Publications", Some("library")))),
    SetCmd(31, 13, Some(GRASS), SIGN, true, Some(Sign("Senate House - Media & Talks", Some("lectureHall")))),
    SetCmd(19, 8, Some(GRASS), SIGN, true, Some(Sign("Research Lab - Current Projects", Some("lab")))),
    SetCmd(20, 22, Some(GRASS), SIGN, true,
      Some(Sign("Welcome to Cambridge! Explore the campus to learn about Sam's work. Enter buildings to discover more.", None)))
  ]

  predicate InRect(cx: int, cy: int, x: int, y: int, w: int, h: int)
  {
    x <= cx < x + w && y <= cy < y + h
  }

  /** The columns the window loop writes: every second one from x + 1, except the entrance's. */
  predicate WindowColumn(cx: int, x: int, w: int, entranceX: int)
  {
    x + 1 <= cx < x + w - 1 && (cx - x - 1) % 2 == 0 && cx != entranceX
  }

  /** Every cell `buildBuilding` writes: the footprint, roof row, window row, door and front cell. */
  predicate Footprint(cx: int, cy: int, e: Point, x: int, y: int, w: int, h: int)
  {
    InRect(cx, cy, x, y, w, h) || (cy == y && x <= cx < x + w) || (cy == y + 2 && WindowColumn(cx, x, w, e.x)) ||
    (cx == e.x && (cy == e.y || cy == e.y + 1))
  }

  /** The arguments `buildBuilding` writes within the campus: its index arithmetic is unchecked. */
  predicate BuildFits(id: BuildingId, x: int, y: int, w: int, h: int)
  {
    0 <= x && 0 <= w && x + w <= WIDTH && 0 <= y && 0 <= h && y + h <= HEIGHT && y + 2 < HEIGHT &&
    InCampus(BuildingInfo(id).entrance.x, BuildingInfo(id).entrance.y) && BuildingInfo(id).entrance.y + 1 < HEIGHT
  }

  function BuiltObject(l: Layers, e: Point, x: int, y: int, w: int, h: int, cx: int, cy: int): int
    requires Shaped(l, WIDTH, HEIGHT) && InCampus(cx, cy)
  {
    if cx == e.x && cy == e.y then DOOR
    else if cy == y + 2 && WindowColumn(cx, x, w, e.x) then WINDOW
    else if cy == y && x <= cx < x + w then ROOF
    else if InRect(cx, cy, x, y, w, h) then WALL
    else l.objects[cy][cx]
  }

  function BuiltCollision(l: Layers, e: Point, x: int, y: int, w: int, h: int, cx: int, cy: int): int
    requires Shaped(l, WIDTH, HEIGHT) && InCampus(cx, cy)
  {
    if cx == e.x && (cy == e.y || cy == e.y + 1) then 0
    else if InRect(cx, cy, x, y, w, h) then 1
    else l.collision[cy][cx]
  }

  /**
   * `buildBuilding`: walls over the footprint, a roof row, windows on the third
   * row, a walkable door at the entrance and a walkable path tile in front of it.
   */
  function BuildBuilding(l: Layers, id: BuildingId, x: int, y: int, w: int, h: int, name: string): (r: Layers)
    requires Shaped(l, WIDTH, HEIGHT) && BuildFits(id, x, y, w, h)
    ensures Shaped(r, WIDTH, HEIGHT)
    ensures var e := BuildingInfo(id).entrance;
            forall cy, cx :: InCampus(cx, cy) && !Footprint(cx, cy, e, x, y, w, h) ==> CellAt(r, cx, cy) == CellAt(l, cx, cy)
    ensures var e := BuildingInfo(id).entrance;
            r.objects[e.y][e.x] == DOOR && r.collision[e.y][e.x] == 0 && r.interact[e.y][e.x] == Some(Door(IdName(id), name))
    ensures var e := BuildingInfo(id).entrance;
            r.ground[e.y + 1][e.x] == PATH && r.collision[e.y + 1][e.x] == 0 &&
            r.interact[e.y + 1][e.x] == Some(Entrance(IdName(id), name))
    ensures var e := BuildingInfo(id).entrance;
            forall cy, cx :: InCampus(cx, cy) && InRect(cx, cy, x, y, w, h) && !(cx == e.x && (cy == e.y || cy == e.y + 1))
              ==> r.collision[cy][cx] == 1
    ensures var e := BuildingInfo(id).entrance;
            forall cy :: 0 <= cy < HEIGHT && r.objects[cy][e.x] == WINDOW ==> l.objects[cy][e.x] == WINDOW
  {
    var e := BuildingInfo(id).entrance;
    var objects := seq(HEIGHT, cy requires 0 <= cy < HEIGHT =>
                     seq(WIDTH, cx requires 0 <= cx < WIDTH => BuiltObject(l, e, x, y, w, h, cx, cy)));
    var collision := seq(HEIGHT, cy requires 0 <= cy < HEIGHT =>
                       seq(WIDTH, cx requires 0 <= cx < WIDTH => BuiltCollision(l, e, x, y, w, h, cx, cy)));
    var ground := Put(l.ground, e.x, e.y + 1, PATH);
    var interact := Put(Put(l.interact, e.x, e.y, Some(Door(IdName(id), name))), e.x, e.y + 1, Some(Entrance(IdName(id), name)));
    Layers(ground, objects, collision, interact)
  }

  /** A cell holding a tree trunk or the tree top above it. */
  predicate TreeCell(x: int, y: int)
  {
    exists k :: 0 <= k < |TREE_POSITIONS| && TREE_POSITIONS[k].x == x &&
      (TREE_POSITIONS[k].y == y || TREE_POSITIONS[k].y - 1 == y)
  }

  /** The path and flower `setTile` calls block nothing. */
  lemma PathsBlockNothing(x: int, y: int)
    ensures !BlockedBy(PathCmds(), x, y) && !BlockedBy(VerticalPathCmds(), x, y)
  {
  }

  lemma FlowersBlockNothing(x: int, y: int)
    ensures !BlockedBy(FlowerCmds(), x, y)
  {
  }

  /** The river blocks exactly columns 0..2. */
  lemma RiverBlocking(x: int, y: int)
    requires InCampus(x, y)
    ensures BlockedBy(RiverCmds(), x, y) <==> x < 3
  {
    if x < 3 {
      var i := 3 * y + x;
      assert RiverCmds()[i].x == x && RiverCmds()[i].y == y;
    }
  }

  /** Command `i` of the tree loop: the trunk for even `i`, the top above it for odd `i`. */
  lemma TreeCmdAt(i: int)
    requires 0 <= i < 2 * |TREE_POSITIONS|
    ensures var t := TREE_POSITIONS[i / 2];
            TreeCmds()[i].blocked && TreeCmds()[i].x == t.x &&
            TreeCmds()[i].y == (if i % 2 == 0 then t.y else t.y - 1)
  {
  }

  /** The trees block exactly their trunk and top cells. */
  lemma TreeBlocking(x: int, y: int)
    ensures BlockedBy(TreeCmds(), x, y) <==> TreeCell(x, y)
  {
    if TreeCell(x, y) {
      TreeCellBlocked(x, y);
    }
    if BlockedBy(TreeCmds(), x, y) {
      BlockedIsTreeCell(x, y);
    }
  }

  lemma TreeCellBlocked(x: int, y: int)
    requires TreeCell(x, y)
    ensures BlockedBy(TreeCmds(), x, y)
  {
    var k :| 0 <= k < |TREE_POSITIONS| && TREE_POSITIONS[k].x == x &&
             (TREE_POSITIONS[k].y == y || TREE_POSITIONS[k].y - 1 == y);
    var i := if TREE_POSITIONS[k].y == y then 2 * k else 2 * k + 1;
    assert i / 2 == k && (i % 2 == 0 <==> TREE_POSITIONS[k].y == y);
    TreeCmdAt(i);
    assert |TreeCmds()| == 2 * |TREE_POSITIONS|;
    assert TreeCmds()[i].x == x && TreeCmds()[i].y == y && TreeCmds()[i].blocked;
  }

  lemma BlockedIsTreeCell(x: int, y: int)
    requires BlockedBy(TreeCmds(), x, y)
    ensures TreeCell(x, y)
  {
    var i :| 0 <= i < |TreeCmds()| && TreeCmds()[i].x == x && TreeCmds()[i].y == y && TreeCmds()[i].blocked;
    TreeCmdAt(i);
    var k := i / 2;
    assert TREE_POSITIONS[k].x == x && (TREE_POSITIONS[k].y == y || TREE_POSITIONS[k].y - 1 == y);
  }

  // The paths, river, flowers and trees of `generateCampusMap` are drawn with
  // `setTile` in source order, in three stages to keep each proof small.

  /** Grass everywhere, then the horizontal and vertical paths: nothing blocked yet. */
  method DrawPaths() returns (l: Layers)
    ensures Shaped(l, WIDTH, HEIGHT)
    ensures forall y, x :: InCampus(x, y) ==> l.collision[y][x] == 0
  {
    var blank := BlankCampus();
    var paths := ApplyAll(blank, PathCmds());
    l := ApplyAll(paths, VerticalPathCmds());
    forall y, x | InCampus(x, y)
      ensures l.collision[y][x] == 0
    {
      assert CellAt(blank, x, y).collision == 0;
      PathsBlockNothing(x, y);
    }
  }

  /** The river on the three left columns, then the flowers, which block nothing. */
  method DrawWaterAndFlowers() returns (l: Layers)
    ensures Shaped(l, WIDTH, HEIGHT)
    ensures forall y, x :: InCampus(x, y) ==> (l.collision[y][x] != 0 <==> x < 3)
  {
    var paths := DrawPaths();
    var river := ApplyAll(paths, RiverCmds());
    l := ApplyAll(river, FlowerCmds());
    forall y, x | InCampus(x, y)
      ensures l.collision[y][x] != 0 <==> x < 3
    {
      FlowersBlockNothing(x, y);
      RiverBlocking(x, y);
    }
  }

  /** The paths, river, flowers and trees: only the river and the trees block. */
  method DrawGroundwork() returns (l: Layers)
    ensures Shaped(l, WIDTH, HEIGHT)
    ensures forall y, x :: InCampus(x, y) ==> (l.collision[y][x] != 0 <==> x < 3 || TreeCell(x, y))
  {
    var flowers := DrawWaterAndFlowers();
    l := ApplyAll(flowers, TreeCmds());
    forall y, x | InCampus(x, y)
      ensures l.collision[y][x] != 0 <==> x < 3 || TreeCell(x, y)
    {
      TreeBlocking(x, y);
    }
  }

  /** The four cells of a building's footprint, roof, window row, door and front. */
  predicate BuildingFootprint(b: BuildingId, x: int, y: int)
  {
    var t := BuildingInfo(b).tiles;
    Footprint(x, y, BuildingInfo(b).entrance, t.x, t.y, t.w, t.h)
  }

  /**
   * The door of `b` is walkable and carries a door record; the tile in front
   * of it is a walkable path carrying an entrance record, both naming `b`.
   */
  predicate DoorReady(l: Layers, b: BuildingId)
  {
    var e := BuildingInfo(b).entrance;
    Shaped(l, WIDTH, HEIGHT) && InCampus(e.x, e.y) && e.y + 1 < HEIGHT &&
    l.objects[e.y][e.x] == DOOR && l.collision[e.y][e.x] == 0 &&
    l.interact[e.y][e.x] == Some(Door(IdName(b), DoorName(b))) &&
    l.ground[e.y + 1][e.x] == PATH && l.collision[e.y + 1][e.x] == 0 &&
    l.interact[e.y + 1][e.x] == Some(Entrance(IdName(b), DoorName(b)))
  }

  /**
   * The four `buildBuilding` calls, with the footprints of `buildings`. Every
   * door ends up ready, and cells outside all footprints are untouched.
   */
  method DrawBuildings(g: Layers) returns (l: Layers)
    requires Shaped(g, WIDTH, HEIGHT)
    ensures Shaped(l, WIDTH, HEIGHT)
    ensures forall b :: DoorReady(l, b)
    ensures forall y, x :: InCampus(x, y) && (forall b :: !BuildingFootprint(b, x, y)) ==> CellAt(l, x, y) == CellAt(g, x, y)
  {
    var office := PlaceBuilding(g, OfficeId, 6, 9, 5, 4);
    var library := PlaceBuilding(office, LibraryId, 17, 14, 7, 5);
    DoorKept(office, library, OfficeId, LibraryId);
    var lectureHall := PlaceBuilding(library, LectureHallId, 29, 9, 6, 4);
    DoorKept(library, lectureHall, OfficeId, LectureHallId);
    DoorKept(library, lectureHall, LibraryId, LectureHallId);
    l := PlaceBuilding(lectureHall, LabId, 17, 4, 7, 4);
    DoorKept(lectureHall, l, OfficeId, LabId);
    DoorKept(lectureHall, l, LibraryId, LabId);
    DoorKept(lectureHall, l, LectureHallId, LabId);
    forall b
      ensures DoorReady(l, b)
    {
      match b
      case OfficeId =>
      case LibraryId =>
      case LectureHallId =>
      case LabId =>
    }
    forall y, x | InCampus(x, y) && (forall b :: !BuildingFootprint(b, x, y))
      ensures CellAt(l, x, y) == CellAt(g, x, y)
    {
      assert !BuildingFootprint(OfficeId, x, y) && !BuildingFootprint(LibraryId, x, y);
      assert !BuildingFootprint(LectureHallId, x, y) && !BuildingFootprint(LabId, x, y);
    }
  }

  /** One `buildBuilding` call with the footprint `buildings` records for `id`. */
  method PlaceBuilding(g: Layers, id: BuildingId, x: int, y: int, w: int, h: int) returns (l: Layers)
    requires Shaped(g, WIDTH, HEIGHT) && Rect(x, y, w, h) == BuildingInfo(id).tiles
    ensures Shaped(l, WIDTH, HEIGHT) && DoorReady(l, id)
    ensures forall cy, cx :: InCampus(cx, cy) && !BuildingFootprint(id, cx, cy) ==> CellAt(l, cx, cy) == CellAt(g, cx, cy)
  {
    l := BuildBuilding(g, id, x, y, w, h, DoorName(id));
  }

  /** The door and front cells of `b` lie outside the footprint of every other building. */
  lemma DoorsApart(b: BuildingId, c: BuildingId)
    requires b != c
    ensures var e := BuildingInfo(b).entrance;
            !BuildingFootprint(c, e.x, e.y) && !BuildingFootprint(c, e.x, e.y + 1)
  {
  }

  /** Building `c` over `before` keeps the door of `b` ready. */
  lemma DoorKept(before: Layers, after: Layers, b: BuildingId, c: BuildingId)
    requires b != c && DoorReady(before, b) && Shaped(after, WIDTH, HEIGHT)
    requires forall y, x :: InCampus(x, y) && !BuildingFootprint(c, x, y) ==> CellAt(after, x, y) == CellAt(before, x, y)
    ensures DoorReady(after, b)
  {
    var e := BuildingInfo(b).entrance;
    DoorsApart(b, c);
    assert CellAt(after, e.x, e.y) == CellAt(before, e.x, e.y);
    assert CellAt(after, e.x, e.y + 1) == CellAt(before, e.x, e.y + 1);
  }

  /** A cell one of the signs is drawn on. */
  predicate SignCell(x: int, y: int)
  {
    exists k :: 0 <= k < |SignCmds| && SignCmds[k].x == x && SignCmds[k].y == y
  }

  /**
   * The five sign `setTile` calls: each sign cell holds a blocking sign with
   * its record, and no other cell changes.
   */
  method DrawSigns(g: Layers) returns (l: Layers)
    requires Shaped(g, WIDTH, HEIGHT)
    ensures Shaped(l, WIDTH, HEIGHT)
    ensures forall k :: 0 <= k < |SignCmds| ==>
              var c := SignCmds[k];
              l.objects[c.y][c.x] == SIGN && l.collision[c.y][c.x] == 1 && l.interact[c.y][c.x] == c.data
    ensures forall y, x :: InCampus(x, y) && !SignCell(x, y) ==> CellAt(l, x, y) == CellAt(g, x, y)
  {
    var s0 := SetTile(g, SignCmds[0]);
    var s1 := SetTile(s0, SignCmds[1]);
    var s2 := SetTile(s1, SignCmds[2]);
    var s3 := SetTile(s2, SignCmds[3]);
    l := SetTile(s3, SignCmds[4]);
    forall y, x | InCampus(x, y) && !SignCell(x, y)
      ensures CellAt(l, x, y) == CellAt(g, x, y)
    {
      assert forall k :: 0 <= k < |SignCmds| ==> !(SignCmds[k].x == x && SignCmds[k].y == y);
    }
  }

  /** What the finished campus guarantees: its size, every door, the river and the player's start tile. */
  predicate CampusReady(m: GameMap)
  {
    WellFormed(m) && m.width == WIDTH && m.height == HEIGHT &&
    (forall b :: DoorReady(m.layers, b)) &&
    (forall y, x :: 0 <= y < HEIGHT && 0 <= x < 3 ==> m.layers.collision[y][x] != 0) &&
    m.layers.collision[26][20] == 0 && m.layers.collision[20][20] == 0
  }

  /** `generateCampusMap`: the ground work, the buildings, then the signs. */
  method GenerateCampusMap() returns (m: GameMap)
    ensures CampusReady(m)
  {
    var ground := DrawGroundwork();
    var built := DrawBuildings(ground);
    var l := DrawSigns(built);
    m := GameMap(WIDTH, HEIGHT, l);
    forall b
      ensures DoorReady(l, b)
    {
      var e := BuildingInfo(b).entrance;
      assert DoorReady(built, b);
      SignsClearOfDoors(b);
      assert CellAt(l, e.x, e.y) == CellAt(built, e.x, e.y);
      assert CellAt(l, e.x, e.y + 1) == CellAt(built, e.x, e.y + 1);
    }
    forall y, x | 0 <= y < HEIGHT && 0 <= x < 3
      ensures l.collision[y][x] != 0
    {
      RiverUnbuilt(x, y);
      assert CellAt(l, x, y) == CellAt(built, x, y) == CellAt(ground, x, y);
    }
    StartTilesUnbuilt();
    assert CellAt(l, 20, 26) == CellAt(built, 20, 26) == CellAt(ground, 20, 26);
    assert CellAt(l, 20, 20) == CellAt(built, 20, 20) == CellAt(ground, 20, 20);
  }

  /** No sign stands on a door or on the tile in front of one. */
  lemma SignsClearOfDoors(b: BuildingId)
    ensures var e := BuildingInfo(b).entrance;
            !SignCell(e.x, e.y) && !SignCell(e.x, e.y + 1)
  {
  }

  /** The river columns hold no building and no sign. */
  lemma RiverUnbuilt(x: int, y: int)
    requires 0 <= x < 3
    ensures !SignCell(x, y) && forall b :: !BuildingFootprint(b, x, y)
  {
  }

  /** The start tile (20, 26) and the fallback exit tile (20, 20) hold no tree, building or sign. */
  lemma StartTilesUnbuilt()
    ensures !SignCell(20, 26) && !TreeCell(20, 26) && forall b :: !BuildingFootprint(b, 20, 26)
    ensures !SignCell(20, 20) && !TreeCell(20, 20) && forall b :: !BuildingFootprint(b, 20, 20)
  {
  }

  // ---------------------------------------------------------------------
  // Interiors
  // ---------------------------------------------------------------------

  /** A w x h layer whose cell (x, y) is `f(x, y)`. */
  function Tabulate<T>(w: nat, h: nat, f: (int, int) -> T): (g: Grid<T>)
    ensures IsGrid(g, w, h)
    ensures forall y, x :: 0 <= y < h && 0 <= x < w ==> g[y][x] == f(x, y)
  {
    seq(h, y => seq(w, x => f(x, y)))
  }

  /** The outer walls every interior shares: the top row and both side columns block. */
  predicate OuterWall(w: int, x: int, y: int)
  {
    y == 0 || x == 0 || x == w - 1
  }

  /**
   * An interior from per-cell descriptions of its layers; the floor is wood,
   * and the spawn is one row above the middle of the bottom row.
   */
  function MakeInterior(name: string, w: nat, h: nat, objects: (int, int) -> int, collision: (int, int) -> int,
                        interact: (int, int) -> Option<Interaction>): (r: Interior)
    ensures WellFormed(r.layout) && r.layout.width == w && r.layout.height == h
    ensures r.name == name && r.spawn == Point(w / 2, h - 2)
    ensures forall y, x :: 0 <= y < h && 0 <= x < w ==>
              r.layout.layers.ground[y][x] == WOOD_FLOOR && r.layout.layers.objects[y][x] == objects(x, y) &&
              r.layout.layers.collision[y][x] == collision(x, y) && r.layout.layers.interact[y][x] == interact(x, y)
  {
    var layers := Layers(Tabulate(w, h, (x, y) => WOOD_FLOOR), Tabulate(w, h, objects),
                         Tabulate(w, h, collision), Tabulate(w, h, interact));
    Interior(name, Point(w / 2, h - 2), GameMap(w, h, layers))
  }

  // Office, 12 x 10.

  function OfficeObject(x: int, y: int): int
  {
    if y == 0 then INT_WALL
    else if x == 2 && y == 2 then DESK
    else if x == 3 && y == 2 then COMPUTER
    else if x == 2 && y == 3 then CHAIR
    else if y == 1 && 6 <= x < 10 then BOOKSHELF
    else if x == 10 && y == 1 then WINDOW
    else -1
  }

  function OfficeCollision(x: int, y: int): int
  {
    if OuterWall(12, x, y) || (y == 2 && (x == 2 || x == 3)) || (y == 1 && 6 <= x <= 10) then 1 else 0
  }

  function OfficeInteract(x: int, y: int): Option<Interaction>
  {
    if x == 6 && y == 9 then Some(Exit)
    else if x == 2 && y == 3 then Some(Object("desk", "office.desk"))
    else if x == 3 && y == 3 then Some(Object("computer", "office.computer"))
    else if y == 2 && 6 <= x < 10 then Some(Object("bookshelf", "office.bookshelf"))
    else if x == 10 && y == 2 then Some(Object("window", "office.window"))
    else None
  }

  function OfficeInterior(): Interior
  {
    MakeInterior("Sam's Office", 12, 10, OfficeObject, OfficeCollision, OfficeInteract)
  }

  // Library, 16 x 12.

  function LibraryObject(x: int, y: int): int
  {
    if y == 0 then INT_WALL
    else if y == 1 && (2 <= x < 7 || 9 <= x < 14) then BOOKSHELF
    else if (y == 4 || y == 7) && 3 <= x < 13 then BOOKSHELF
    else if y == 9 && (x == 7 || x == 8) then DESK
    else -1
  }

  function LibraryCollision(x: int, y: int): int
  {
    if OuterWall(16, x, y) || (y == 1 && (2 <= x < 7 || 9 <= x < 14)) || ((y == 4 || y == 7) && 3 <= x < 13) ||
       (y == 9 && (x == 7 || x == 8)) then 1
    else 0
  }

  function LibraryInteract(x: int, y: int): Option<Interaction>
  {
    if x == 8 && y == 11 then Some(Exit)
    else if y == 2 && 2 <= x < 7 then Some(Publication(x - 2))
    else if y == 2 && 9 <= x < 14 then Some(Publication(x - 4))
    else None
  }

  function LibraryInterior(): Interior
  {
    MakeInterior("King's College Library", 16, 12, LibraryObject, LibraryCollision, LibraryInteract)
  }

  // Lecture hall, 14 x 12.

  /** The chair rows 5, 7, 9, 11 and chair columns 3, 5, 7, 9. */
  predicate ChairRow(y: int) { 5 <= y <= 11 && y % 2 == 1 }
  predicate ChairColumn(x: int) { 3 <= x <= 9 && x % 2 == 1 }

  function LectureHallObject(x: int, y: int): int
  {
    if ChairRow(y) && ChairColumn(x) then CHAIR
    else if y == 0 then INT_WALL
    else if y == 2 && (x == 6 || x == 7) then PODIUM
    else if y == 1 && 5 <= x <= 8 then WINDOW
    else -1
  }

  function LectureHallCollision(x: int, y: int): int
  {
    if OuterWall(14, x, y) || (y == 2 && (x == 6 || x == 7)) || (y == 1 && 5 <= x <= 8) ||
       (ChairRow(y) && ChairColumn(x)) then 1
    else 0
  }

  /** The podium shows media item 0; the seat right of each chair shows its row's item. */
  function LectureHallInteract(x: int, y: int): Option<Interaction>
  {
    if x == 7 && y == 11 then Some(Exit)
    else if y == 3 && (x == 6 || x == 7) then Some(Media(0))
    else if ChairRow(y) && ChairColumn(x - 1) then Some(Media((y - 5) / 2 + 1))
    else None
  }

  function LectureHallInterior(): Interior
  {
    MakeInterior("Senate House - Lecture Hall", 14, 12, LectureHallObject, LectureHallCollision, LectureHallInteract)
  }

  // Lab, 16 x 12.

  function LabObject(x: int, y: int): int
  {
    if y == 0 then INT_WALL
    else if y == 2 && (2 <= x < 7 || 9 <= x < 14) then LAB_BENCH
    else if y == 5 && (x == 3 || x == 11) then DESK
    else if y == 5 && (x == 4 || x == 12) then COMPUTER
    else if y == 8 && 5 <= x < 11 then BOOKSHELF
    else -1
  }

  function LabCollision(x: int, y: int): int
  {
    if OuterWall(16, x, y) || (y == 2 && (2 <= x < 7 || 9 <= x < 14)) ||
       (y == 5 && (x == 3 || x == 4 || x == 11 || x == 12)) || (y == 8 && 5 <= x < 11) then 1
    else 0
  }

  function LabInteract(x: int, y: int): Option<Interaction>
  {
    if x == 8 && y == 11 then Some(Exit)
    else if y == 3 && 2 <= x < 7 then Some(Research(0))
    else if y == 3 && 9 <= x < 14 then Some(Research(1))
    else if y == 6 && (x == 3 || x == 4) then Some(Research(2))
    else if y == 6 && (x == 11 || x == 12) then Some(Research(3))
    else if y == 9 && (x == 7 || x == 8) then Some(Object("whiteboard", "lab.whiteboard"))
    else None
  }

  function LabInterior(): Interior
  {
    MakeInterior("Research Lab", 16, 12, LabObject, LabCollision, LabInteract)
  }

  /**
   * Every interior is closed by its top row and side columns, and its spawn
   * is a walkable cell with no record right above the exit in the middle of
   * the bottom row.
   */
  predicate Enclosed(i: Interior)
  {
    var m := i.layout;
    WellFormed(m) &&
    forall y, x :: 0 <= y < m.height && 0 <= x < m.width && OuterWall(m.width, x, y) ==> m.layers.collision[y][x] == 1
  }

  predicate SpawnAboveExit(i: Interior)
  {
    var m := i.layout;
    WellFormed(m) && i.spawn == Point(m.width / 2, m.height - 2) &&
    InMap(m, i.spawn.x, i.spawn.y) && InMap(m, i.spawn.x, i.spawn.y + 1) &&
    m.layers.collision[i.spawn.y][i.spawn.x] == 0 && m.layers.interact[i.spawn.y][i.spawn.x] == None &&
    m.layers.interact[i.spawn.y + 1][i.spawn.x] == Some(Exit)
  }

  // Each interior generator is a method so that its callers see only its contract.

  method GenerateOfficeInterior() returns (i: Interior)
    ensures Enclosed(i) && SpawnAboveExit(i) && i.name == "Sam's Office"
  {
    i := OfficeInterior();
    assert OfficeCollision(6, 8) == 0 && OfficeInteract(6, 8) == None && OfficeInteract(6, 9) == Some(Exit);
  }

  method GenerateLibraryInterior() returns (i: Interior)
    ensures Enclosed(i) && SpawnAboveExit(i) && i.name == "King's College Library"
  {
    i := LibraryInterior();
    assert LibraryCollision(8, 10) == 0 && LibraryInteract(8, 10) == None && LibraryInteract(8, 11) == Some(Exit);
  }

  method GenerateLectureHallInterior() returns (i: Interior)
    ensures Enclosed(i) && SpawnAboveExit(i) && i.name == "Senate House - Lecture Hall"
  {
    i := LectureHallInterior();
    assert !ChairRow(10);
    assert LectureHallCollision(7, 10) == 0 && LectureHallInteract(7, 10) == None;
    assert LectureHallInteract(7, 11) == Some(Exit);
  }

  method GenerateLabInterior() returns (i: Interior)
    ensures Enclosed(i) && SpawnAboveExit(i) && i.name == "Research Lab"
  {
    i := LabInterior();
    assert LabCollision(8, 10) == 0 && LabInteract(8, 10) == None && LabInteract(8, 11) == Some(Exit);
  }

  /**
   * The lecture hall's exit record sits on the last row of chairs, so that
   * cell is not walkable: the exit is only ever reached by facing it.
   */
  lemma LectureHallExitOnChair()
    ensures var m := LectureHallInterior().layout;
            m.layers.interact[11][7] == Some(Exit) && m.layers.objects[11][7] == CHAIR &&
            m.layers.collision[11][7] == 1
  {
    assert ChairRow(11) && ChairColumn(7);
  }

  /** What `generateInteriorMaps` leaves in `interiorMaps`: one sound interior per building. */
  predicate InteriorsReady(interiors: map<BuildingId, Interior>)
  {
    forall b :: b in interiors && Enclosed(interiors[b]) && SpawnAboveExit(interiors[b])
  }

  /** `generateInteriorMaps`. */
  method GenerateInteriorMaps() returns (interiors: map<BuildingId, Interior>)
    ensures InteriorsReady(interiors)
    ensures interiors[OfficeId].name == "Sam's Office" && interiors[LibraryId].name == "King's College Library"
    ensures interiors[LectureHallId].name == "Senate House - Lecture Hall" && interiors[LabId].name == "Research Lab"
  {
    var office := GenerateOfficeInterior();
    var library := GenerateLibraryInterior();
    var lectureHall := GenerateLectureHallInterior();
    var lab := GenerateLabInterior();
    interiors := map[OfficeId := office, LibraryId := library, LectureHallId := lectureHall, LabId := lab];
    forall b
      ensures b in interiors && Enclosed(interiors[b]) && SpawnAboveExit(interiors[b])
    {
      match b
      case OfficeId =>
      case LibraryId =>
      case LectureHallId =>
      case LabId =>
    }
  }

  // ---------------------------------------------------------------------
  // Queries and transitions
  // ---------------------------------------------------------------------

  /**
   * `currentLocation`: the campus or a building key. A location naming a
   * building with no interior falls back to the campus map.
   */
  datatype Location = OnCampus | Inside(building: BuildingId)

  /** The world: the current location, `campusMap` and `interiorMaps`. */
  datatype World = World(currentLocation: Location, campus: GameMap, interiors: map<BuildingId, Interior>)

  /** Every map the world can show has its layers in shape. */
  predicate MapsWellFormed(w: World)
  {
    WellFormed(w.campus) && forall b :: b in w.interiors ==> WellFormed(w.interiors[b].layout)
  }

  /** `init`: generate the maps and start on campus. */
  method Init() returns (w: World)
    ensures w.currentLocation == OnCampus && CampusReady(w.campus) && InteriorsReady(w.interiors)
    ensures MapsWellFormed(w)
  {
    var campus := GenerateCampusMap();
    var interiors := GenerateInteriorMaps();
    w := World(OnCampus, campus, interiors);
  }

  /** `getCurrentMap`: the current interior, or the campus when on campus or the interior is missing. */
  function GetCurrentMap(w: World): (m: GameMap)
    requires MapsWellFormed(w)
    ensures WellFormed(m)
    ensures w.currentLocation.Inside? && w.currentLocation.building in w.interiors ==>
              m == w.interiors[w.currentLocation.building].layout
    ensures w.currentLocation.OnCampus? || w.currentLocation.building !in w.interiors ==> m == w.campus
  {
    match w.currentLocation
    case OnCampus => w.campus
    case Inside(b) => if b in w.interiors then w.interiors[b].layout else w.campus
  }

  /** `isWalkable`: false off the map, else whether the collision cell is 0. */
  function IsWalkable(w: World, x: int, y: int): (b: bool)
    requires MapsWellFormed(w)
    ensures var m := GetCurrentMap(w);
            b <==> InMap(m, x, y) && m.layers.collision[y][x] == 0
  {
    var m := GetCurrentMap(w);
    if x < 0 || x >= m.width || y < 0 || y >= m.height then false
    else m.layers.collision[y][x] == 0
  }

  /** `getInteraction`: no record off the map, else the interact cell. */
  function GetInteraction(w: World, x: int, y: int): (r: Option<Interaction>)
    requires MapsWellFormed(w)
    ensures var m := GetCurrentMap(w);
            !InMap(m, x, y) ==> r == None
    ensures var m := GetCurrentMap(w);
            InMap(m, x, y) ==> r == m.layers.interact[y][x]
  {
    var m := GetCurrentMap(w);
    if x < 0 || x >= m.width || y < 0 || y >= m.height then None
    else m.layers.interact[y][x]
  }

  /** The numeric layers `getTile` is asked for. */
  datatype Layer = Ground | Objects | Collision

  /** `getTile`: -1 off the map, else the named layer's cell. */
  function GetTile(w: World, x: int, y: int, layer: Layer): (t: int)
    requires MapsWellFormed(w)
    ensures var m := GetCurrentMap(w);
            !InMap(m, x, y) ==> t == -1
    ensures var m := GetCurrentMap(w);
            InMap(m, x, y) ==>
              t == match layer
                   case Ground => m.layers.ground[y][x]
                   case Objects => m.layers.objects[y][x]
                   case Collision => m.layers.collision[y][x]
  {
    var m := GetCurrentMap(w);
    if x < 0 || x >= m.width || y < 0 || y >= m.height then -1
    else match layer
      case Ground => m.layers.ground[y][x]
      case Objects => m.layers.objects[y][x]
      case Collision => m.layers.collision[y][x]
  }

  /**
   * `enterBuilding`: for a key with an interior, moves inside and returns the
   * interior; otherwise changes nothing and returns null.
   */
  function EnterBuilding(w: World, buildingId: string): (res: (World, Option<Interior>))
    ensures forall b :: IdName(b) == buildingId && b in w.interiors ==>
              res == (w.(currentLocation := Inside(b)), Some(w.interiors[b]))
    ensures (forall b :: IdName(b) == buildingId ==> b !in w.interiors) ==> res == (w, None)
  {
    match ParseBuilding(buildingId)
    case Some(b) =>
      if b in w.interiors then (w.(currentLocation := Inside(b)), Some(w.interiors[b])) else (w, None)
    case None => (w, None)
  }

  /**
   * `exitBuilding`: always back on campus; the spawn is the tile below the
   * previous building's entrance, or (20, 20) when already on campus.
   */
  function ExitBuilding(w: World): (res: (World, Point))
    ensures res.0 == w.(currentLocation := OnCampus)
    ensures w.currentLocation.Inside? ==>
              var e := BuildingInfo(w.currentLocation.building).entrance;
              res.1 == Point(e.x, e.y + 1)
    ensures w.currentLocation.OnCampus? ==> res.1 == Point(20, 20)
  {
    match w.currentLocation
    case Inside(b) =>
      var e := BuildingInfo(b).entrance;
      (w.(currentLocation := OnCampus), Point(e.x, e.y + 1))
    case OnCampus => (w.(currentLocation := OnCampus), Point(20, 20))
  }

  // ---------------------------------------------------------------------
  // Properties of the finished world
  // ---------------------------------------------------------------------

  /**
   * Entering a building lands on its interior's spawn, a walkable cell
   * right above the exit record.
   */
  lemma EnterLandsAboveExit(w: World, b: BuildingId)
    requires MapsWellFormed(w) && InteriorsReady(w.interiors)
    ensures var entered := EnterBuilding(w, IdName(b));
            var s := w.interiors[b].spawn;
            entered.1 == Some(w.interiors[b]) && entered.0.currentLocation == Inside(b) &&
            IsWalkable(entered.0, s.x, s.y) && GetInteraction(entered.0, s.x, s.y + 1) == Some(Exit)
  {
    var entered := EnterBuilding(w, IdName(b));
    assert ParseBuilding(IdName(b)) == Some(b);
    assert SpawnAboveExit(w.interiors[b]);
    assert GetCurrentMap(entered.0) == w.interiors[b].layout;
  }

  /** Inside any interior, the outer walls can never be walked on. */
  lemma InteriorWallsBlock(w: World, x: int, y: int)
    requires MapsWellFormed(w) && InteriorsReady(w.interiors) && w.currentLocation.Inside?
    requires var m := GetCurrentMap(w); InMap(m, x, y) && OuterWall(m.width, x, y)
    ensures !IsWalkable(w, x, y)
  {
    assert Enclosed(w.interiors[w.currentLocation.building]);
  }

  /**
   * Entering a building and leaving it again puts the player back on campus
   * on the walkable path tile in front of that building's door, which
   * carries the building's entrance record.
   */
  lemma EnterThenExit(w: World, b: BuildingId)
    requires MapsWellFormed(w) && CampusReady(w.campus) && b in w.interiors
    ensures var entered := EnterBuilding(w, IdName(b));
            var left := ExitBuilding(entered.0);
            var p := left.1;
            left.0 == w.(currentLocation := OnCampus) &&
            IsWalkable(left.0, p.x, p.y) && GetInteraction(left.0, p.x, p.y) == Some(Entrance(IdName(b), DoorName(b)))
  {
    var entered := EnterBuilding(w, IdName(b));
    assert ParseBuilding(IdName(b)) == Some(b);
    assert entered.0 == w.(currentLocation := Inside(b));
    var left := ExitBuilding(entered.0);
    var e := BuildingInfo(b).entrance;
    assert left.1 == Point(e.x, e.y + 1);
    assert DoorReady(w.campus.layers, b);
  }

  /** Leaving while already on campus lands on a walkable tile. */
  lemma ExitOnCampusIsWalkable(w: World)
    requires MapsWellFormed(w) && CampusReady(w.campus) && w.currentLocation == OnCampus
    ensures var left := ExitBuilding(w);
            left.0 == w && left.1 == Point(20, 20) && IsWalkable(left.0, 20, 20)
  {
  }

  /** A string that names no building leaves the world as it is. */
  lemma EnterUnknownIsNoOp(w: World, s: string)
    requires ParseBuilding(s).None?
    ensures EnterBuilding(w, s) == (w, None)
  {
  }
}
