/**
 * The vanilla engine's player: a logical tile position plus a pixel position
 * (16 pixels per tile) that slides toward the target tile at 2 pixels per
 * update. A step starts only onto a walkable tile of the current `World`
 * map. The keyboard and touch handlers are modelled as the key-state changes
 * they make.
 */
module GridPlayer {
  import opened Wrappers
  import World

  /** Pixels per tile, pixels per update, and updates per animation frame. */
  const TILE: int := 16
  const SPEED: int := 2
  const FRAME_DELAY: int := 8

  datatype Direction = Up | Down | Left | Right

  /** The `keys` record. */
  datatype Keys = Keys(up: bool, down: bool, left: bool, right: bool, action: bool)

  datatype Player = Player(
    x: int, y: int,
    pixelX: int, pixelY: int,
    moving: bool,
    targetX: int, targetY: int,
    direction: Direction,
    frame: int, frameTimer: int, animating: bool,
    keys: Keys,
    nearInteraction: Option<World.Interaction>)

  /** The object as first loaded: standing on (20, 20) facing down, no key held. */
  function Initial(): (p: Player)
    ensures p.x == 20 && p.y == 20 && p.pixelX == 20 * TILE && p.pixelY == 20 * TILE
    ensures !p.moving && !p.animating && p.frame == 0 && p.frameTimer == 0 && p.nearInteraction == None
    ensures !AnyMovementKey(p.keys) && !p.keys.action
  {
    Player(20, 20, 320, 320, false, 20, 20, Down, 0, 0, false, Keys(false, false, false, false, false), None)
  }

  /**
   * `v || 20` for a coordinate argument: `None` stands for a missing argument;
   * a missing or zero coordinate becomes 20, any other value is kept.
   */
  function OrDefault(v: Option<int>): (r: int)
    ensures (v == None || v == Some(0)) <==> r == 20 && v != Some(20)
    ensures v.Some? && v.value != 0 ==> r == v.value
  {
    match v
    case Some(n) => if n != 0 then n else 20
    case None => 20
  }

  /**
   * `init(startX, startY)`: places the player on its tile, pixel-aligned and
   * facing down, with no step in progress. The animation flag, timer, keys
   * and nearby record are left as they were.
   */
  function Init(p: Player, startX: Option<int>, startY: Option<int>): (r: Player)
    ensures r.x == OrDefault(startX) && r.y == OrDefault(startY)
    ensures r.pixelX == r.x * TILE && r.pixelY == r.y * TILE && r.targetX == r.x && r.targetY == r.y
    ensures r.direction == Down && r.frame == 0 && !r.moving
    ensures r.animating == p.animating && r.frameTimer == p.frameTimer && r.keys == p.keys &&
            r.nearInteraction == p.nearInteraction
  {
    var x := OrDefault(startX);
    var y := OrDefault(startY);
    p.(x := x, y := y, pixelX := x * 16, pixelY := y * 16, targetX := x, targetY := y,
       direction := Down, frame := 0, moving := false)
  }

  // ---------------------------------------------------------------------
  // Controls
  // ---------------------------------------------------------------------

  /** The five controls a key, D-pad button or action button can drive. */
  datatype Control = UpKey | DownKey | LeftKey | RightKey | ActionKey

  /** The `e.key` values the keyboard handlers react to. */
  function ControlOf(key: string): (c: Option<Control>)
    ensures c == Some(UpKey) <==> key in {"ArrowUp", "w", "W"}
    ensures c == Some(DownKey) <==> key in {"ArrowDown", "s", "S"}
    ensures c == Some(LeftKey) <==> key in {"ArrowLeft", "a", "A"}
    ensures c == Some(RightKey) <==> key in {"ArrowRight", "d", "D"}
    ensures c == Some(ActionKey) <==> key in {"Enter", " "}
  {
    if key == "ArrowUp" || key == "w" || key == "W" then Some(UpKey)
    else if key == "ArrowDown" || key == "s" || key == "S" then Some(DownKey)
    else if key == "ArrowLeft" || key == "a" || key == "A" then Some(LeftKey)
    else if key == "ArrowRight" || key == "d" || key == "D" then Some(RightKey)
    else if key == "Enter" || key == " " then Some(ActionKey)
    else None
  }

  function IsHeld(k: Keys, c: Control): bool
  {
    match c
    case UpKey => k.up
    case DownKey => k.down
    case LeftKey => k.left
    case RightKey => k.right
    case ActionKey => k.action
  }

  /** Setting one control; the others are kept. */
  function SetControl(k: Keys, c: Control, held: bool): (r: Keys)
    ensures IsHeld(r, c) == held
    ensures forall d :: d != c ==> IsHeld(r, d) == IsHeld(k, d)
  {
    match c
    case UpKey => k.(up := held)
    case DownKey => k.(down := held)
    case LeftKey => k.(left := held)
    case RightKey => k.(right := held)
    case ActionKey => k.(action := held)
  }

  /** The `keydown` handler: auto-repeats and unknown keys are ignored. */
  function KeyDown(p: Player, key: string, repeat: bool): (r: Player)
    ensures repeat || ControlOf(key).None? ==> r == p
    ensures !repeat && ControlOf(key).Some? ==> r == p.(keys := SetControl(p.keys, ControlOf(key).value, true))
  {
    if repeat then p
    else match ControlOf(key)
      case Some(c) => p.(keys := SetControl(p.keys, c, true))
      case None => p
  }

  /** The `keyup` handler: releases the control the key drives, if any. */
  function KeyUp(p: Player, key: string): (r: Player)
    ensures ControlOf(key).None? ==> r == p
    ensures ControlOf(key).Some? ==> r == p.(keys := SetControl(p.keys, ControlOf(key).value, false))
  {
    match ControlOf(key)
    case Some(c) => p.(keys := SetControl(p.keys, c, false))
    case None => p
  }

  /** Pressing and releasing a key leaves that control released, whatever it was before. */
  lemma KeyDownThenUp(p: Player, key: string)
    requires ControlOf(key).Some?
    ensures var c := ControlOf(key).value;
            var r := KeyUp(KeyDown(p, key, false), key);
            !IsHeld(r.keys, c) && forall d :: d != c ==> IsHeld(r.keys, d) == IsHeld(p.keys, d)
  {
  }

  function AnyMovementKey(k: Keys): bool
  {
    k.up || k.down || k.left || k.right
  }

  // ---------------------------------------------------------------------
  // Movement
  // ---------------------------------------------------------------------

  /** The key `checkMovement` obeys: up, then down, then left, then right. */
  function Chosen(k: Keys): (d: Option<Direction>)
    ensures d.None? <==> !AnyMovementKey(k)
    ensures k.up ==> d == Some(Up)
    ensures d == Some(Down) ==> k.down && !k.up
    ensures d == Some(Left) ==> k.left && !k.up && !k.down
    ensures d == Some(Right) ==> k.right && !k.up && !k.down && !k.left
  {
    if k.up then Some(Up)
    else if k.down then Some(Down)
    else if k.left then Some(Left)
    else if k.right then Some(Right)
    else None
  }

  /** The unit step of a direction, in tiles. */
  function DX(d: Direction): int
  {
    match d
    case Left => -1
    case Right => 1
    case _ => 0
  }

  function DY(d: Direction): int
  {
    match d
    case Up => -1
    case Down => 1
    case _ => 0
  }

  /**
   * `checkMovement`: turn toward the chosen key even when the way is blocked;
   * start a step only when the neighbouring tile that way is walkable.
   */
  function CheckMovement(p: Player, w: World.World): (r: Player)
    requires World.MapsWellFormed(w)
    ensures Chosen(p.keys).None? ==> r == p
    ensures Chosen(p.keys).Some? ==>
              var d := Chosen(p.keys).value;
              var nx, ny := p.x + DX(d), p.y + DY(d);
              r.direction == d &&
              (World.IsWalkable(w, nx, ny) ==>
                 r == p.(direction := d, targetX := nx, targetY := ny, moving := true, animating := true)) &&
              (!World.IsWalkable(w, nx, ny) ==> r == p.(direction := d))
  {
    match Chosen(p.keys)
    case None => p
    case Some(d) =>
      var nx, ny := p.x + DX(d), p.y + DY(d);
      if World.IsWalkable(w, nx, ny) then
        p.(direction := d, targetX := nx, targetY := ny, moving := true, animating := true)
      else p.(direction := d)
  }

  /** One pixel axis moved `SPEED` toward `target`, never past it. */
  function Approach(v: int, target: int): (r: int)
    ensures v < target ==> v < r <= target && r <= v + SPEED
    ensures v > target ==> target <= r < v && r >= v - SPEED
    ensures v == target ==> r == v
  {
    if v < target then (if v + SPEED < target then v + SPEED else target)
    else if v > target then (if v - SPEED > target then v - SPEED else target)
    else v
  }

  /**
   * `continueMovement`: slide the pixel position toward the target tile; on
   * arrival take the target as the logical tile and either try the next step
   * at once (a key still held) or stop the walk animation.
   */
  function ContinueMovement(p: Player, w: World.World): (r: Player)
    requires World.MapsWellFormed(w)
    ensures r.keys == p.keys
    ensures (r.x == p.x && r.y == p.y) || (r.x == p.targetX && r.y == p.targetY)
    ensures (r.x != p.x || r.y != p.y) && !AnyMovementKey(p.keys) ==> !r.moving && !r.animating && r.frame == 0
  {
    var px := Approach(p.pixelX, p.targetX * TILE);
    var py := Approach(p.pixelY, p.targetY * TILE);
    var moved := p.(pixelX := px, pixelY := py);
    if px == p.targetX * TILE && py == p.targetY * TILE then
      var arrived := moved.(x := p.targetX, y := p.targetY, moving := false);
      if AnyMovementKey(p.keys) then CheckMovement(arrived, w)
      else arrived.(animating := false, frame := 0)
    else moved
  }

  /** `updateAnimation`: while animating, the frame advances once the timer reaches `FRAME_DELAY`. */
  function UpdateAnimation(p: Player): (r: Player)
    ensures !p.animating ==> r == p
    ensures p.animating && p.frameTimer + 1 < FRAME_DELAY ==> r == p.(frameTimer := p.frameTimer + 1)
    ensures p.animating && p.frameTimer + 1 >= FRAME_DELAY ==> r == p.(frameTimer := 0, frame := (p.frame + 1) % 4)
  {
    if p.animating then
      var timer := p.frameTimer + 1;
      if timer >= FRAME_DELAY then p.(frameTimer := 0, frame := (p.frame + 1) % 4)
      else p.(frameTimer := timer)
    else p
  }

  /** `checkNearbyInteraction`: the record of the tile stood on, else of the tile faced. */
  function CheckNearbyInteraction(p: Player, w: World.World): (r: Player)
    requires World.MapsWellFormed(w)
    ensures r == p.(nearInteraction := r.nearInteraction)
    ensures World.GetInteraction(w, p.x, p.y).Some? ==> r.nearInteraction == World.GetInteraction(w, p.x, p.y)
    ensures World.GetInteraction(w, p.x, p.y).None? ==>
              r.nearInteraction == World.GetInteraction(w, p.x + DX(p.direction), p.y + DY(p.direction))
  {
    var here := World.GetInteraction(w, p.x, p.y);
    var found := if here.Some? then here
                 else World.GetInteraction(w, p.x + DX(p.direction), p.y + DY(p.direction));
    p.(nearInteraction := found)
  }

  /** `update`: move (start or continue a step), animate, then look for a nearby record. */
  function Update(p: Player, w: World.World): (r: Player)
    requires World.MapsWellFormed(w)
    ensures r.keys == p.keys
    ensures !p.moving ==> r.x == p.x && r.y == p.y
    ensures !p.moving && !AnyMovementKey(p.keys) ==> r.pixelX == p.pixelX && r.pixelY == p.pixelY && !r.moving
    ensures p.moving ==> (r.x == p.x && r.y == p.y) || (r.x == p.targetX && r.y == p.targetY)
  {
    var stepped := if !p.moving then CheckMovement(p, w) else ContinueMovement(p, w);
    CheckNearbyInteraction(UpdateAnimation(stepped), w)
  }

  /** `interact`: the nearby record, if any. */
  function Interact(p: Player): (r: Option<World.Interaction>)
    ensures r == p.nearInteraction
  {
    if p.nearInteraction.Some? then p.nearInteraction else None
  }

  /** `teleport`: stand still on (x, y), pixel-aligned, facing `direction`. */
  function Teleport(p: Player, x: int, y: int, direction: Direction): (r: Player)
    ensures r.x == x && r.y == y && r.pixelX == x * TILE && r.pixelY == y * TILE
    ensures r.targetX == x && r.targetY == y && r.direction == direction
    ensures !r.moving && !r.animating && r.frame == 0
    ensures r.keys == p.keys && r.frameTimer == p.frameTimer && r.nearInteraction == p.nearInteraction
  {
    p.(x := x, y := y, pixelX := x * 16, pixelY := y * 16, targetX := x, targetY := y,
       direction := direction, moving := false, animating := false, frame := 0)
  }

  function ActionPressed(p: Player): bool
  {
    p.keys.action
  }

  /** `clearAction`: releases the action control only. */
  function ClearAction(p: Player): (r: Player)
    ensures !ActionPressed(r)
    ensures r == p.(keys := r.keys) && forall c :: c != ActionKey ==> IsHeld(r.keys, c) == IsHeld(p.keys, c)
  {
    p.(keys := p.keys.(action := false))
  }

  // ---------------------------------------------------------------------
  // Invariants and step timing
  // ---------------------------------------------------------------------

  /**
   * What every update keeps, for a fixed map: the logical tile is walkable;
   * during a step the target is a walkable neighbour, the pixel position lies
   * on the segment between the two tiles, an even number of pixels from the
   * target; at rest the pixel position is the tile's. The frame stays in 0..3
   * and the animation timer below `FRAME_DELAY`.
   */
  predicate Inv(p: Player, w: World.World)
    requires World.MapsWellFormed(w)
  {
    World.IsWalkable(w, p.x, p.y) &&
    0 <= p.frame < 4 && 0 <= p.frameTimer < FRAME_DELAY &&
    (p.moving ==> World.IsWalkable(w, p.targetX, p.targetY) && InStep(p)) &&
    (!p.moving ==> p.pixelX == p.x * TILE && p.pixelY == p.y * TILE)
  }

  /** During a step: one axis still to go, the other already aligned. */
  predicate InStep(p: Player)
  {
    var tx, ty := p.targetX * TILE, p.targetY * TILE;
    ((p.targetY == p.y && (p.targetX == p.x + 1 || p.targetX == p.x - 1) && p.pixelY == ty &&
      Between(p.pixelX, p.x * TILE, tx) && (tx - p.pixelX) % 2 == 0) ||
     (p.targetX == p.x && (p.targetY == p.y + 1 || p.targetY == p.y - 1) && p.pixelX == tx &&
      Between(p.pixelY, p.y * TILE, ty) && (ty - p.pixelY) % 2 == 0)) &&
    (p.pixelX != tx || p.pixelY != ty)
  }

  predicate Between(v: int, a: int, b: int)
  {
    (a <= v <= b) || (b <= v <= a)
  }

  /** Starting a step from rest keeps the invariant. */
  lemma CheckMovementKeepsInv(p: Player, w: World.World)
    requires World.MapsWellFormed(w) && Inv(p, w) && !p.moving
    ensures Inv(CheckMovement(p, w), w)
  {
  }

  /** One update keeps the invariant. */
  lemma UpdateKeepsInv(p: Player, w: World.World)
    requires World.MapsWellFormed(w) && Inv(p, w)
    ensures Inv(Update(p, w), w)
  {
    var stepped := if !p.moving then CheckMovement(p, w) else ContinueMovement(p, w);
    if !p.moving {
      CheckMovementKeepsInv(p, w);
    } else {
      ContinueKeepsInv(p, w);
    }
    AnimateAndLookKeepInv(stepped, w);
  }

  /** Animating and looking around touch neither position nor step. */
  lemma AnimateAndLookKeepInv(p: Player, w: World.World)
    requires World.MapsWellFormed(w) && Inv(p, w)
    ensures var r := CheckNearbyInteraction(UpdateAnimation(p), w);
            Inv(r, w) && r.x == p.x && r.y == p.y && r.pixelX == p.pixelX && r.pixelY == p.pixelY &&
            r.moving == p.moving && r.targetX == p.targetX && r.targetY == p.targetY && r.keys == p.keys
  {
    var a := UpdateAnimation(p);
    assert Inv(a, w);
    var r := CheckNearbyInteraction(a, w);
    assert r == a.(nearInteraction := r.nearInteraction);
  }

  lemma ContinueKeepsInv(p: Player, w: World.World)
    requires World.MapsWellFormed(w) && Inv(p, w) && p.moving
    ensures Inv(ContinueMovement(p, w), w)
  {
    var px := Approach(p.pixelX, p.targetX * TILE);
    var py := Approach(p.pixelY, p.targetY * TILE);
    if px == p.targetX * TILE && py == p.targetY * TILE {
      ArriveKeepsInv(p, w);
    } else {
      SlideKeepsInv(p, w);
    }
  }

  /** Arriving on the target tile, the player stands on walkable ground, then may start the next step. */
  lemma ArriveKeepsInv(p: Player, w: World.World)
    requires World.MapsWellFormed(w) && Inv(p, w) && p.moving
    requires Approach(p.pixelX, p.targetX * TILE) == p.targetX * TILE
    requires Approach(p.pixelY, p.targetY * TILE) == p.targetY * TILE
    ensures Inv(ContinueMovement(p, w), w)
  {
    var arrived := p.(pixelX := p.targetX * TILE, pixelY := p.targetY * TILE,
                      x := p.targetX, y := p.targetY, moving := false);
    assert Inv(arrived, w);
    if AnyMovementKey(p.keys) {
      CheckMovementKeepsInv(arrived, w);
    }
  }

  /** Short of the target, the player is still between the two tiles of the step. */
  lemma SlideKeepsInv(p: Player, w: World.World)
    requires World.MapsWellFormed(w) && Inv(p, w) && p.moving
    requires Approach(p.pixelX, p.targetX * TILE) != p.targetX * TILE ||
             Approach(p.pixelY, p.targetY * TILE) != p.targetY * TILE
    ensures Inv(ContinueMovement(p, w), w)
  {
    var tx, ty := p.targetX * TILE, p.targetY * TILE;
    var moved := p.(pixelX := Approach(p.pixelX, tx), pixelY := Approach(p.pixelY, ty));
    if p.targetY == p.y && p.pixelY == ty {
      ApproachAxis(p.pixelX, p.x * TILE, tx);
    } else {
      ApproachAxis(p.pixelY, p.y * TILE, ty);
    }
    assert InStep(moved);
    assert ContinueMovement(p, w) == moved;
  }

  /** A slide that falls short of the target stays between the step's ends, an even distance away. */
  lemma ApproachAxis(v: int, from: int, target: int)
    requires Between(v, from, target) && (target - v) % 2 == 0
    ensures Approach(v, target) != target ==>
              Between(Approach(v, target), from, target) && (target - Approach(v, target)) % 2 == 0
  {
  }

  /** `n` updates in a row against the same map. */
  function Updates(p: Player, w: World.World, n: nat): (r: Player)
    requires World.MapsWellFormed(w)
    decreases n
  {
    if n == 0 then p else Updates(Update(p, w), w, n - 1)
  }

  lemma {:induction false} UpdatesKeepInv(p: Player, w: World.World, n: nat)
    requires World.MapsWellFormed(w) && Inv(p, w)
    ensures Inv(Updates(p, w, n), w)
    decreases n
  {
    if n > 0 {
      UpdateKeepsInv(p, w);
      UpdatesKeepInv(Update(p, w), w, n - 1);
    }
  }

  /** Pixels still to travel in the current step. */
  function Remaining(p: Player): int
  {
    Abs(p.targetX * TILE - p.pixelX) + Abs(p.targetY * TILE - p.pixelY)
  }

  function Abs(v: int): int
  {
    if v < 0 then -v else v
  }

  /** A mid-step update travels `SPEED` pixels and changes nothing else that matters. */
  lemma MidStepUpdate(p: Player, w: World.World)
    requires World.MapsWellFormed(w) && Inv(p, w) && p.moving && Remaining(p) > SPEED
    ensures var r := Update(p, w);
            r.moving && r.x == p.x && r.y == p.y && r.targetX == p.targetX && r.targetY == p.targetY &&
            Remaining(r) == Remaining(p) - SPEED && r.keys == p.keys
  {
  }

  /** The update that covers the last `SPEED` pixels lands on the target tile. */
  lemma FinalStepUpdate(p: Player, w: World.World)
    requires World.MapsWellFormed(w) && Inv(p, w) && p.moving && Remaining(p) <= SPEED
    ensures var r := Update(p, w);
            r.x == p.targetX && r.y == p.targetY
    ensures var r := Update(p, w);
            !AnyMovementKey(p.keys) ==> !r.moving && !r.animating && r.frame == 0
  {
  }

  /**
   * A step in progress with `2 * k` pixels left stays in progress for `k - 1`
   * more updates and lands on the target tile at update `k`.
   */
  lemma {:induction false} StepLandsAfter(p: Player, w: World.World, k: nat)
    requires World.MapsWellFormed(w) && Inv(p, w) && p.moving && k >= 1 && Remaining(p) == SPEED * k
    ensures forall j :: 0 <= j < k ==>
              var r := Updates(p, w, j);
              r.moving && r.x == p.x && r.y == p.y && r.targetX == p.targetX && r.targetY == p.targetY
    ensures var r := Updates(p, w, k);
            r.x == p.targetX && r.y == p.targetY
    decreases k
  {
    if k == 1 {
      FinalStepUpdate(p, w);
      assert Updates(p, w, 1) == Update(p, w);
      forall j | 0 <= j < k
        ensures var r := Updates(p, w, j);
                r.moving && r.x == p.x && r.y == p.y && r.targetX == p.targetX && r.targetY == p.targetY
      {
        assert j == 0;
      }
    } else {
      MidStepUpdate(p, w);
      var q := Update(p, w);
      UpdateKeepsInv(p, w);
      StepLandsAfter(q, w, k - 1);
      forall j | 0 <= j < k
        ensures var r := Updates(p, w, j);
                r.moving && r.x == p.x && r.y == p.y && r.targetX == p.targetX && r.targetY == p.targetY
      {
        if j > 0 {
          assert Updates(p, w, j) == Updates(q, w, j - 1);
        }
      }
      assert Updates(p, w, k) == Updates(q, w, k - 1);
    }
  }

  /** The update that starts a step leaves the whole tile, `TILE` pixels, to travel. */
  lemma StartedStep(p: Player, w: World.World)
    requires World.MapsWellFormed(w) && Inv(p, w) && !p.moving
    requires CheckMovement(p, w).moving
    ensures var s := Update(p, w);
            Inv(s, w) && s.moving && s.x == p.x && s.y == p.y && Remaining(s) == TILE &&
            (s.targetX - p.x) * (s.targetX - p.x) + (s.targetY - p.y) * (s.targetY - p.y) == 1
  {
    var started := CheckMovement(p, w);
    CheckMovementKeepsInv(p, w);
    AnimateAndLookKeepInv(started, w);
  }

  /**
   * A step started from rest takes exactly `TILE / SPEED` = 8 further
   * updates: the player is still mid-step after 0..7 of them and on the
   * target tile after the eighth.
   */
  lemma StepTakesEightUpdates(p: Player, w: World.World)
    requires World.MapsWellFormed(w) && Inv(p, w) && !p.moving
    requires CheckMovement(p, w).moving
    ensures var s := Update(p, w);
            forall j :: 0 <= j < 8 ==>
              var r := Updates(s, w, j);
              r.moving && r.x == p.x && r.y == p.y && r.targetX == s.targetX && r.targetY == s.targetY
    ensures var s := Update(p, w);
            var r := Updates(s, w, 8);
            r.x == s.targetX && r.y == s.targetY
  {
    StartedStep(p, w);
    var s := Update(p, w);
    StepLandsAfter(s, w, 8);
  }
}
