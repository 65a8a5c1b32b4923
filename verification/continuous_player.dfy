/**
 * The typed engine's player: a free pixel position that moves continuously
 * while a movement key is held (through `MoveWithCollision` with a full-tile
 * hitbox) and eases toward the nearest tile-aligned point when no key is held.
 * The easing factor `1 - exp(-10 * dt)` is a parameter.
 */
module ContinuousPlayer {
  import TileMap
  import Collision
  import Input

  /** Rendered tile size as a real, and the walking speed in pixels per second. */
  const T: real := Collision.T
  const SPEED: real := 256.0

  /** Distance under which the snap lands exactly on its target. */
  const SNAP_EPSILON: real := 0.5

  datatype Player = Player(x: real, y: real)

  /** The constructor: tile coordinates scaled by the rendered tile size. */
  function New(startTileX: int, startTileY: int): (p: Player)
    ensures p.x == (startTileX * 64) as real && p.y == (startTileY * 64) as real
    ensures TileX(p) == startTileX && TileY(p) == startTileY
  {
    Player((startTileX as real) * T, (startTileY as real) * T)
  }

  /** `Math.round`: the nearest integer, halves rounded up. */
  function Round(v: real): (k: int)
    ensures v - 0.5 < k as real <= v + 0.5
  {
    (v + 0.5).Floor
  }

  /** The tile-aligned point `round(v / T) * T` a released axis eases toward. */
  function SnapTarget(v: real): (t: real)
    ensures t == (Round(v / T) as real) * T
    ensures v - T / 2.0 < t <= v + T / 2.0
  {
    (Round(v / T) as real) * T
  }

  /** One axis of the released branch: ease by `f`, then land on the target once within 0.5. */
  function SnapAxis(v: real, f: real): (r: real)
    ensures var t := SnapTarget(v);
            r == t || (r - t >= SNAP_EPSILON || t - r >= SNAP_EPSILON)
    ensures var t := SnapTarget(v);
            0.0 <= f <= 1.0 ==> Between(r, v, t)
    ensures f == 1.0 ==> r == SnapTarget(v)
    ensures v == SnapTarget(v) ==> r == v
  {
    var t := SnapTarget(v);
    var eased := v + (t - v) * f;
    assert 0.0 <= f <= 1.0 ==> Between(eased, v, t) by {
      if 0.0 <= f <= 1.0 {
        LerpBetween(v, t, f);
      }
    }
    if -SNAP_EPSILON < eased - t < SNAP_EPSILON then t else eased
  }

  /** `r` lies on the closed segment between `a` and `b`. */
  predicate Between(r: real, a: real, b: real) {
    (a <= b && a <= r <= b) || (b <= a && b <= r <= a)
  }

  /** A lerp with a factor in [0, 1] stays between its endpoints. */
  lemma LerpBetween(a: real, b: real, f: real)
    requires 0.0 <= f <= 1.0
    ensures Between(a + (b - a) * f, a, b)
  {
    var d := b - a;
    assert d * f - d == d * (f - 1.0);
    if d >= 0.0 {
      assert d * f >= 0.0;
      assert d * (f - 1.0) <= 0.0;
    } else {
      assert d * f <= 0.0;
      assert d * (f - 1.0) >= 0.0;
    }
  }

  /** Easing never changes which tile-aligned point an axis is heading for. */
  lemma SnapKeepsTarget(v: real, f: real)
    requires 0.0 <= f <= 1.0
    ensures SnapTarget(SnapAxis(v, f)) == SnapTarget(v)
  {
    var t := SnapTarget(v);
    var k := Round(v / T);
    var r := SnapAxis(v, f);
    assert t == (k as real) * T;
    assert (k as real) - 0.5 <= r / T <= (k as real) + 0.5;
    if v <= t {
      assert (k as real) - 0.5 <= r / T <= k as real;
    } else {
      assert (k as real) <= r / T < (k as real) + 0.5;
    }
    FloorAbove(r / T + 0.5, k);
    FloorBelow(r / T + 0.5, k);
  }

  /**
   * Easing one axis toward its tile-aligned point never widens the span of
   * tiles a full-tile box covers on that axis: the target is within half a
   * tile, so the box only leaves tiles, it never reaches a new one.
   */
  lemma SnapSpanInside(v: real, f: real)
    requires 0.0 <= f <= 1.0
    ensures Collision.Left(v) <= Collision.Left(SnapAxis(v, f))
    ensures Collision.Right(SnapAxis(v, f), T) <= Collision.Right(v, T)
  {
    var t := SnapTarget(v);
    assert t == (Round(v / T) as real) * T && Between(SnapAxis(v, f), v, t);
    SpanShrinks(v, SnapAxis(v, f), Round(v / T));
  }

  /** A position between `v` and a grid point within half a tile of `v` covers no tile `v` does not. */
  lemma SpanShrinks(v: real, r: real, k: int)
    requires v - T / 2.0 < (k as real) * T <= v + T / 2.0
    requires Between(r, v, (k as real) * T)
    ensures Collision.Left(v) <= Collision.Left(r)
    ensures Collision.Right(r, T) <= Collision.Right(v, T)
  {
    var t := (k as real) * T;
    if v <= t {
      FloorMono(v / T, r / T);
      FloorBelow((r + T - 1.0) / T, k);
      FloorAbove((v + T - 1.0) / T, k);
    } else {
      FloorMono((r + T - 1.0) / T, (v + T - 1.0) / T);
      FloorAbove(r / T, k);
      FloorBelow(v / T, k);
    }
  }

  lemma FloorMono(a: real, b: real)
    requires a <= b
    ensures a.Floor <= b.Floor
  {
  }

  lemma FloorBelow(a: real, k: int)
    requires a < (k as real) + 1.0
    ensures a.Floor <= k
  {
  }

  lemma FloorAbove(a: real, k: int)
    requires (k as real) <= a
    ensures k <= a.Floor
  {
  }

  /** A box free of solid tiles stays free while both axes ease toward the grid. */
  lemma SnapKeepsFree(m: TileMap.Map, x: real, y: real, f: real)
    requires TileMap.Valid(m) && 0.0 <= f <= 1.0
    ensures !Collision.Colliding(m, x, y, T, T) ==> !Collision.Colliding(m, SnapAxis(x, f), SnapAxis(y, f), T, T)
  {
    SnapSpanInside(x, f);
    SnapSpanInside(y, f);
    assert Collision.Top(y) == Collision.Left(y) && Collision.Bottom(y, T) == Collision.Right(y, T);
    var sy := SnapAxis(y, f);
    assert Collision.Top(sy) == Collision.Left(sy) && Collision.Bottom(sy, T) == Collision.Right(sy, T);
  }

  /** `update(deltaTime)`. `snapFactor` stands for `1 - exp(-10 * deltaTime)`. */
  function Update(p: Player, m: TileMap.Map, input: Input.Input, deltaTime: real, snapFactor: real): (r: Player)
    requires TileMap.Valid(m)
    ensures var d := Input.GetMovementDirection(input);
            d.y != 0 ==> r.x == p.x && (r.y == p.y || r.y == p.y + (d.y as real) * SPEED * deltaTime)
    ensures var d := Input.GetMovementDirection(input);
            d.y == 0 && d.x != 0 ==> r.y == p.y && (r.x == p.x || r.x == p.x + (d.x as real) * SPEED * deltaTime)
    ensures Input.AnyMovementKeyPressed(input) && !Collision.Colliding(m, p.x, p.y, T, T) ==>
            !Collision.Colliding(m, r.x, r.y, T, T)
    ensures !Input.AnyMovementKeyPressed(input) ==> r == Player(SnapAxis(p.x, snapFactor), SnapAxis(p.y, snapFactor))
    ensures 0.0 <= snapFactor <= 1.0 && !Collision.Colliding(m, p.x, p.y, T, T) ==>
            !Collision.Colliding(m, r.x, r.y, T, T)
  {
    var dir := Input.GetMovementDirection(input);
    if dir.x != 0 || dir.y != 0 then
      var deltaX := if dir.y != 0 then 0.0 else (dir.x as real) * SPEED * deltaTime;
      var deltaY := if dir.y != 0 then (dir.y as real) * SPEED * deltaTime else 0.0;
      var res := Collision.MoveWithCollision(m, p.x, p.y, deltaX, deltaY, T, T);
      Player(res.x, res.y)
    else
      var snapped := Player(SnapAxis(p.x, snapFactor), SnapAxis(p.y, snapFactor));
      assert 0.0 <= snapFactor <= 1.0 && !Collision.Colliding(m, p.x, p.y, T, T) ==>
             !Collision.Colliding(m, snapped.x, snapped.y, T, T) by {
        if 0.0 <= snapFactor <= 1.0 {
          SnapKeepsFree(m, p.x, p.y, snapFactor);
        }
      }
      snapped
  }

  /** `getCenterX` / `getCenterY`: half a tile right of and below the position. */
  function CenterX(p: Player): (c: real)
    ensures c - p.x == 32.0
  {
    p.x + T / 2.0
  }

  function CenterY(p: Player): (c: real)
    ensures c - p.y == 32.0
  {
    p.y + T / 2.0
  }

  /** `getTileX` / `getTileY`: the tile whose span contains the position. */
  function TileX(p: Player): (k: int)
    ensures (k as real) * T <= p.x < (k as real) * T + T
  {
    (p.x / T).Floor
  }

  function TileY(p: Player): (k: int)
    ensures (k as real) * T <= p.y < (k as real) * T + T
  {
    (p.y / T).Floor
  }
}
