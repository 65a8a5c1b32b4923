/**
 * The vanilla engine: a fixed-timestep loop driving the grid player, the
 * building interactions and the camera. The animation-frame scheduler and
 * `performance.now` become the `currentTime` argument of each frame; the
 * nearby-interaction scan the update calls is the `nearby` parameter.
 * Rendering is not modelled.
 */
module Engine {
  import opened Wrappers
  import World
  import GridPlayer
  import Buildings

  const TILE_SIZE: int := 16

  /** Milliseconds per update, 60 updates a second. */
  const FIXED_DELTA: real := 1000.0 / 60.0

  /** The viewport: its top-left pixel and its size in tiles. */
  datatype Camera = Camera(x: int, y: int, width: int, height: int)

  /** The proximity scan: the interaction near a tile of the current map, if any. */
  type Scanner = (World.World, int, int) -> Option<World.Interaction>

  /** Everything one update reads and writes. */
  datatype Game = Game(
    camera: Camera,
    world: World.World,
    player: GridPlayer.Player,
    ui: Buildings.Ui,
    content: Buildings.Content,
    isMobile: bool)

  /** The `Engine` object: loop state around the game. */
  datatype Engine = Engine(running: bool, lastTime: real, accumulator: real, game: Game)

  /**
   * What every update keeps: the world's maps are generated and in shape, a
   * location inside names an existing interior, and the player keeps its
   * movement invariant, in particular standing on a walkable tile.
   */
  predicate GameInv(g: Game)
  {
    World.MapsWellFormed(g.world) && World.CampusReady(g.world.campus) &&
    World.InteriorsReady(g.world.interiors) &&
    (g.world.currentLocation.Inside? ==> g.world.currentLocation.building in g.world.interiors) &&
    GridPlayer.Inv(g.player, g.world)
  }

  /** `init`: the generated world, the player placed at the campus gate (20, 26), the loop stopped. */
  method Init(camera: Camera, content: Buildings.Content, hasPanel: bool, isMobile: bool) returns (e: Engine)
    ensures !e.running && e.accumulator == 0.0
    ensures e.game.player.x == 20 && e.game.player.y == 26
    ensures e.game.world.currentLocation == World.OnCampus
    ensures GameInv(e.game)
  {
    var w := World.Init();
    var p := GridPlayer.Init(GridPlayer.Initial(), Some(20), Some(26));
    e := Engine(false, 0.0, 0.0, Game(camera, w, p, Buildings.Initial(hasPanel), content, isMobile));
  }

  // ---------------------------------------------------------------------
  // Starting and stopping
  // ---------------------------------------------------------------------

  /** `start`: a no-op while running; otherwise runs from the clock reading `now`. */
  function Start(e: Engine, now: real): (r: Engine)
    ensures e.running ==> r == e
    ensures !e.running ==> r == e.(running := true, lastTime := now)
  {
    if e.running then e else e.(running := true, lastTime := now)
  }

  function Stop(e: Engine): (r: Engine)
    ensures !r.running && r == e.(running := false)
  {
    e.(running := false)
  }

  // ---------------------------------------------------------------------
  // One update
  // ---------------------------------------------------------------------

  /** `updateCamera`: centre on the player, then clamp to the current map. */
  function UpdateCamera(g: Game): (r: Game)
    requires World.MapsWellFormed(g.world)
    ensures var m := World.GetCurrentMap(g.world);
            var maxX := m.width * TILE_SIZE - g.camera.width * TILE_SIZE;
            var maxY := m.height * TILE_SIZE - g.camera.height * TILE_SIZE;
            0 <= r.camera.x && (r.camera.x <= maxX || r.camera.x == 0) &&
            0 <= r.camera.y && (r.camera.y <= maxY || r.camera.y == 0)
    ensures var m := World.GetCurrentMap(g.world);
            var cx := g.player.pixelX - g.camera.width * TILE_SIZE / 2 + TILE_SIZE / 2;
            var maxX := m.width * TILE_SIZE - g.camera.width * TILE_SIZE;
            0 <= cx <= maxX ==> r.camera.x == cx
    ensures var m := World.GetCurrentMap(g.world);
            var cy := g.player.pixelY - g.camera.height * TILE_SIZE / 2 + TILE_SIZE / 2;
            var maxY := m.height * TILE_SIZE - g.camera.height * TILE_SIZE;
            0 <= cy <= maxY ==> r.camera.y == cy
    ensures r == g.(camera := r.camera) && r.camera.width == g.camera.width && r.camera.height == g.camera.height
  {
    var m := World.GetCurrentMap(g.world);
    var cx := g.player.pixelX - g.camera.width * TILE_SIZE / 2 + TILE_SIZE / 2;
    var cy := g.player.pixelY - g.camera.height * TILE_SIZE / 2 + TILE_SIZE / 2;
    var maxX := m.width * TILE_SIZE - g.camera.width * TILE_SIZE;
    var maxY := m.height * TILE_SIZE - g.camera.height * TILE_SIZE;
    g.(camera := g.camera.(x := Max(0, Min(cx, maxX)), y := Max(0, Min(cy, maxY))))
  }

  function Min(a: int, b: int): int { if a < b then a else b }

  function Max(a: int, b: int): int { if a > b then a else b }

  /**
   * When the map is at least as large as the viewport, the clamped camera
   * shows only map pixels: the whole view lies inside the map.
   */
  lemma CameraShowsOnlyMap(g: Game)
    requires World.MapsWellFormed(g.world)
    requires var m := World.GetCurrentMap(g.world);
             g.camera.width <= m.width && g.camera.height <= m.height
    ensures var r := UpdateCamera(g).camera;
            var m := World.GetCurrentMap(g.world);
            0 <= r.x && r.x + g.camera.width * TILE_SIZE <= m.width * TILE_SIZE &&
            0 <= r.y && r.y + g.camera.height * TILE_SIZE <= m.height * TILE_SIZE
  {
  }

  /** `enterBuilding`: into a known interior, with the visit recorded and the welcome dialog open. */
  function EnterBuilding(g: Game, buildingId: string): (r: Game)
    requires World.MapsWellFormed(g.world)
    ensures World.EnterBuilding(g.world, buildingId).1.None? ==> r == g
    ensures var (w, interior) := World.EnterBuilding(g.world, buildingId);
            interior.Some? ==>
              var first := buildingId !in g.ui.visited;
              r.world == w &&
              r.player == GridPlayer.Teleport(g.player, interior.value.spawn.x, interior.value.spawn.y, GridPlayer.Up) &&
              r.ui == Buildings.ShowDialog(Buildings.RecordVisit(g.ui, buildingId).0, interior.value.name,
                                           Buildings.Plain(Buildings.GetWelcomeMessage(buildingId, first))) &&
              r.camera == g.camera && r.content == g.content && r.isMobile == g.isMobile
  {
    var (w, interior) := World.EnterBuilding(g.world, buildingId);
    match interior
    case None => g
    case Some(i) =>
      var (ui, first) := Buildings.RecordVisit(g.ui, buildingId);
      var p := GridPlayer.Teleport(g.player, i.spawn.x, i.spawn.y, GridPlayer.Up);
      g.(world := w, player := p, ui := Buildings.ShowDialog(ui, i.name, Buildings.Plain(Buildings.GetWelcomeMessage(buildingId, first))))
  }

  /** `exitBuilding`: onto the spawn point `World.exitBuilding` gives, facing down. */
  function ExitBuilding(g: Game): (r: Game)
    ensures var (w, spawn) := World.ExitBuilding(g.world);
            r == g.(world := w, player := GridPlayer.Teleport(g.player, spawn.x, spawn.y, GridPlayer.Down))
  {
    var (w, spawn) := World.ExitBuilding(g.world);
    g.(world := w, player := GridPlayer.Teleport(g.player, spawn.x, spawn.y, GridPlayer.Down))
  }

  /** `handleInteractionResult`: only 'enter' and 'exit' move the player. */
  function HandleInteractionResult(g: Game, res: Buildings.ActionResult): (r: Game)
    requires World.MapsWellFormed(g.world)
    ensures res.Enter? ==> r == EnterBuilding(g, res.building)
    ensures res.ExitAction? ==> r == ExitBuilding(g)
    ensures res.DialogAction? ==> r == g
    ensures r.world.campus == g.world.campus && r.world.interiors == g.world.interiors
    ensures r.camera == g.camera && r.content == g.content && r.isMobile == g.isMobile
  {
    match res
    case Enter(b) => EnterBuilding(g, b)
    case ExitAction => ExitBuilding(g)
    case DialogAction => g
  }

  /** The record an action acts on: the prompt's current interaction, else the player's. */
  function Target(g: Game): (r: Option<World.Interaction>)
    ensures g.ui.currentInteraction.Some? ==> r == g.ui.currentInteraction
    ensures g.ui.currentInteraction.None? ==> r == g.player.nearInteraction
  {
    if g.ui.currentInteraction.Some? then g.ui.currentInteraction else GridPlayer.Interact(g.player)
  }

  /** Handing a record to `handleInteraction` and acting on its result. */
  function Respond(g: Game, i: World.Interaction): (r: Game)
    requires World.MapsWellFormed(g.world)
    ensures r.camera == g.camera && r.content == g.content && r.isMobile == g.isMobile
    ensures r.world.campus == g.world.campus && r.world.interiors == g.world.interiors
  {
    var (ui, res) := Buildings.HandleInteraction(g.ui, Some(i), g.content);
    if res.Some? then HandleInteractionResult(g.(ui := ui), res.value) else g.(ui := ui)
  }

  /** The action branch of `update`: respond to the target record, if any, then release the action. */
  function Act(g: Game): (r: Game)
    requires World.MapsWellFormed(g.world)
    ensures !GridPlayer.ActionPressed(r.player)
    ensures r.camera == g.camera && r.content == g.content && r.isMobile == g.isMobile
    ensures r.world.campus == g.world.campus && r.world.interiors == g.world.interiors
  {
    var acted := if Target(g).Some? then Respond(g, Target(g).value) else g;
    acted.(player := GridPlayer.ClearAction(acted.player))
  }

  /**
   * `update`: while a dialog or the panel is open only the action key is
   * handled, by the dialog; otherwise the player moves, an action is handled,
   * the prompt follows the nearby record and the camera follows the player.
   */
  function Update(g: Game, nearby: Scanner): (r: Game)
    requires World.MapsWellFormed(g.world)
    ensures Buildings.IsDialogOpen(g.ui) && GridPlayer.ActionPressed(g.player) ==>
              r == g.(ui := Buildings.HandleDialogAction(g.ui).0, player := GridPlayer.ClearAction(g.player))
    ensures Buildings.IsDialogOpen(g.ui) && !GridPlayer.ActionPressed(g.player) ==> r == g
    ensures r.world.campus == g.world.campus && r.world.interiors == g.world.interiors
    ensures r.content == g.content && r.isMobile == g.isMobile
  {
    if Buildings.IsDialogOpen(g.ui) then
      if GridPlayer.ActionPressed(g.player) then
        g.(ui := Buildings.HandleDialogAction(g.ui).0, player := GridPlayer.ClearAction(g.player))
      else g
    else FreeUpdate(g, nearby)
  }

  /** The branch of `update` taken when no dialog or panel is open. */
  function FreeUpdate(g: Game, nearby: Scanner): (r: Game)
    requires World.MapsWellFormed(g.world)
    ensures r.world.campus == g.world.campus && r.world.interiors == g.world.interiors
    ensures r.content == g.content && r.isMobile == g.isMobile
  {
    var moved := g.(player := GridPlayer.Update(g.player, g.world));
    var acted := if GridPlayer.ActionPressed(moved.player) then Act(moved) else moved;
    UpdateCamera(FollowPrompt(acted, nearby))
  }

  /** The prompt step of `update`: the nearby record's prompt, unless a dialog or the panel opened. */
  function FollowPrompt(g: Game, nearby: Scanner): (r: Game)
    ensures r == g.(ui := r.ui)
    ensures !Buildings.IsDialogOpen(g.ui) ==>
              r.ui == Buildings.UpdatePrompt(g.ui, nearby(g.world, g.player.x, g.player.y), g.isMobile)
    ensures Buildings.IsDialogOpen(g.ui) ==> r.ui == Buildings.HidePrompt(g.ui)
  {
    if !Buildings.IsDialogOpen(g.ui) && !g.ui.panelOpen then
      g.(ui := Buildings.UpdatePrompt(g.ui, nearby(g.world, g.player.x, g.player.y), g.isMobile))
    else g.(ui := Buildings.HidePrompt(g.ui))
  }

  // ---------------------------------------------------------------------
  // The invariant across updates
  // ---------------------------------------------------------------------

  /** Entering a known interior lands on its walkable spawn; an unknown key changes nothing. */
  lemma EnterKeepsInv(g: Game, buildingId: string)
    requires GameInv(g)
    ensures GameInv(EnterBuilding(g, buildingId))
  {
    var (w, interior) := World.EnterBuilding(g.world, buildingId);
    if interior.Some? {
      var b := World.ParseBuilding(buildingId).value;
      assert World.IdName(b) == buildingId;
      World.EnterLandsAboveExit(g.world, b);
      var r := EnterBuilding(g, buildingId);
      assert r.world == w;
      assert World.MapsWellFormed(w);
    }
  }

  /** Leaving lands on a walkable campus tile: the front of the building, or (20, 20). */
  lemma ExitKeepsInv(g: Game)
    requires GameInv(g)
    ensures GameInv(ExitBuilding(g))
  {
    var (w, spawn) := World.ExitBuilding(g.world);
    assert World.MapsWellFormed(w);
    match g.world.currentLocation
    case Inside(b) =>
      assert World.DoorReady(g.world.campus.layers, b);
      assert World.GetCurrentMap(w) == g.world.campus;
    case OnCampus =>
      World.ExitOnCampusIsWalkable(g.world);
  }

  lemma RespondKeepsInv(g: Game, i: World.Interaction)
    requires GameInv(g)
    ensures GameInv(Respond(g, i))
  {
    var (ui, res) := Buildings.HandleInteraction(g.ui, Some(i), g.content);
    var g1 := g.(ui := ui);
    assert GameInv(g1);
    if res.Some? {
      match res.value
      case Enter(b) => EnterKeepsInv(g1, b);
      case ExitAction => ExitKeepsInv(g1);
      case DialogAction =>
    }
  }

  lemma ActKeepsInv(g: Game)
    requires GameInv(g)
    ensures GameInv(Act(g))
  {
    var acted := if Target(g).Some? then Respond(g, Target(g).value) else g;
    if Target(g).Some? {
      RespondKeepsInv(g, Target(g).value);
    }
    ReleaseKeepsInv(acted);
  }

  /** Releasing the action key changes nothing the invariant looks at. */
  lemma ReleaseKeepsInv(g: Game)
    requires GameInv(g)
    ensures GameInv(g.(player := GridPlayer.ClearAction(g.player)))
  {
    var p := g.player;
    var q := GridPlayer.ClearAction(p);
    assert q.x == p.x && q.y == p.y && q.pixelX == p.pixelX && q.pixelY == p.pixelY;
    assert q.moving == p.moving && q.targetX == p.targetX && q.targetY == p.targetY;
    assert q.frame == p.frame && q.frameTimer == p.frameTimer;
  }

  /** Every update keeps the invariant: in particular the player never stands on a blocked tile. */
  lemma UpdateKeepsInv(g: Game, nearby: Scanner)
    requires GameInv(g)
    ensures GameInv(Update(g, nearby))
    ensures World.IsWalkable(Update(g, nearby).world, Update(g, nearby).player.x, Update(g, nearby).player.y)
  {
    if !Buildings.IsDialogOpen(g.ui) {
      GridPlayer.UpdateKeepsInv(g.player, g.world);
      var moved := g.(player := GridPlayer.Update(g.player, g.world));
      assert GameInv(moved);
      var acted := if GridPlayer.ActionPressed(moved.player) then Act(moved) else moved;
      if GridPlayer.ActionPressed(moved.player) {
        ActKeepsInv(moved);
      }
      assert GameInv(acted);
      var prompted := FollowPrompt(acted, nearby);
      assert GameInv(prompted);
      assert Update(g, nearby) == UpdateCamera(prompted);
    } else {
      assert Update(g, nearby).world == g.world;
    }
  }

  /** One update where the maps are well formed; no change elsewhere. */
  function StepOrStay(g: Game, nearby: Scanner): Game
  {
    if World.MapsWellFormed(g.world) then Update(g, nearby) else g
  }

  /** The update as a function value, so that `Iterate` can repeat it. */
  function Step(nearby: Scanner): Game -> Game
  {
    x => StepOrStay(x, nearby)
  }

  /** `n` applications of `step`. */
  function Iterate(g: Game, n: nat, step: Game -> Game): Game
    decreases n
  {
    if n == 0 then g else step(Iterate(g, n - 1, step))
  }

  /** A step that keeps the invariant keeps it over any number of applications. */
  lemma {:induction false} IterateKeepsInv(g: Game, n: nat, step: Game -> Game)
    requires GameInv(g) && forall x :: GameInv(x) ==> GameInv(step(x))
    ensures GameInv(Iterate(g, n, step))
    decreases n
  {
    if n > 0 {
      IterateKeepsInv(g, n - 1, step);
    }
  }

  /** `n` updates in a row. */
  function Updates(g: Game, n: nat, nearby: Scanner): Game
  {
    Iterate(g, n, Step(nearby))
  }

  /** Any number of updates keeps the invariant. */
  lemma UpdatesKeepInv(g: Game, n: nat, nearby: Scanner)
    requires GameInv(g)
    ensures GameInv(Updates(g, n, nearby))
  {
    forall x | GameInv(x)
      ensures GameInv(Step(nearby)(x))
    {
      UpdateKeepsInv(x, nearby);
    }
    IterateKeepsInv(g, n, Step(nearby));
  }

  // ---------------------------------------------------------------------
  // The frame loop
  // ---------------------------------------------------------------------

  /**
   * `loop(currentTime)`: a stopped engine ignores the frame. A running one
   * adds the elapsed time to the accumulator and runs one update per whole
   * `FIXED_DELTA` in it, keeping the remainder.
   */
  method Loop(e: Engine, currentTime: real, nearby: Scanner) returns (r: Engine, updates: nat)
    requires World.MapsWellFormed(e.game.world)
    ensures !e.running ==> r == e && updates == 0
    ensures e.running ==>
              var total := e.accumulator + (currentTime - e.lastTime);
              r.running && r.lastTime == currentTime &&
              r.game == Updates(e.game, updates, nearby) &&
              r.accumulator == total - (updates as real) * FIXED_DELTA &&
              (total >= 0.0 ==> updates == (total / FIXED_DELTA).Floor && 0.0 <= r.accumulator < FIXED_DELTA) &&
              (total < 0.0 ==> updates == 0)
  {
    if !e.running {
      return e, 0;
    }
    var total := e.accumulator + (currentTime - e.lastTime);
    var acc := total;
    var g := e.game;
    updates := 0;
    while acc >= FIXED_DELTA
      invariant acc == total - (updates as real) * FIXED_DELTA
      invariant total >= 0.0 ==> acc >= 0.0
      invariant total < 0.0 ==> updates == 0
      invariant g == Updates(e.game, updates, nearby)
      invariant World.MapsWellFormed(g.world)
      decreases acc.Floor
    {
      FloorDrops(acc);
      g := Update(g, nearby);
      acc := acc - FIXED_DELTA;
      updates := updates + 1;
    }
    if total >= 0.0 {
      FloorOfRemainder(total, updates, acc);
    }
    r := Engine(true, currentTime, acc, g);
  }

  /** Taking one step off the accumulator lowers its whole part. */
  lemma FloorDrops(acc: real)
    requires acc >= FIXED_DELTA
    ensures 0 <= (acc - FIXED_DELTA).Floor < acc.Floor
  {
  }

  /** A remainder in [0, FIXED_DELTA) pins the number of whole steps taken. */
  lemma FloorOfRemainder(total: real, n: nat, acc: real)
    requires acc == total - (n as real) * FIXED_DELTA && 0.0 <= acc < FIXED_DELTA
    ensures (total / FIXED_DELTA).Floor == n
  {
    var q := total / FIXED_DELTA;
    assert q == (n as real) + acc / FIXED_DELTA;
    assert 0.0 <= acc / FIXED_DELTA < 1.0;
  }
}
