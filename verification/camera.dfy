/**
 * The typed engine's camera: a viewport offset that follows a target by a
 * lerp factor and is clamped after every public mutator so that no area
 * outside the map is shown. The factor `1 - exp(-12 * dt)` is a parameter.
 */
module Camera {

  datatype Camera = Camera(x: real, y: real,
                           viewportWidth: real, viewportHeight: real,
                           mapWidth: real, mapHeight: real)

  function Max(a: real, b: real): real { if a >= b then a else b }
  function Min(a: real, b: real): real { if a <= b then a else b }

  /** The largest allowed offsets, `max(0, map - viewport)`. */
  function MaxX(c: Camera): (m: real)
    ensures m >= 0.0 && m >= c.mapWidth - c.viewportWidth
    ensures m == 0.0 || m == c.mapWidth - c.viewportWidth
  {
    Max(0.0, c.mapWidth - c.viewportWidth)
  }

  function MaxY(c: Camera): (m: real)
    ensures m >= 0.0 && m >= c.mapHeight - c.viewportHeight
    ensures m == 0.0 || m == c.mapHeight - c.viewportHeight
  {
    Max(0.0, c.mapHeight - c.viewportHeight)
  }

  /** The bounds invariant every public mutator re-establishes. */
  predicate InBounds(c: Camera) {
    0.0 <= c.x <= MaxX(c) && 0.0 <= c.y <= MaxY(c)
  }

  /** `max(0, min(v, hi))` for a non-negative bound. */
  function ClampAxis(v: real, hi: real): (r: real)
    requires hi >= 0.0
    ensures 0.0 <= r <= hi
    ensures 0.0 <= v <= hi ==> r == v
    ensures v < 0.0 ==> r == 0.0
    ensures v > hi ==> r == hi
  {
    Max(0.0, Min(v, hi))
  }

  /** `clampToBounds`: sizes untouched, offsets pulled into range, in-range offsets kept. */
  function ClampToBounds(c: Camera): (r: Camera)
    ensures InBounds(r)
    ensures r.viewportWidth == c.viewportWidth && r.viewportHeight == c.viewportHeight
    ensures r.mapWidth == c.mapWidth && r.mapHeight == c.mapHeight
    ensures InBounds(c) ==> r == c
    ensures c.mapWidth <= c.viewportWidth ==> r.x == 0.0
    ensures c.mapHeight <= c.viewportHeight ==> r.y == 0.0
  {
    c.(x := ClampAxis(c.x, MaxX(c)), y := ClampAxis(c.y, MaxY(c)))
  }

  /** Clamping twice is clamping once. */
  lemma ClampIdempotent(c: Camera)
    ensures ClampToBounds(ClampToBounds(c)) == ClampToBounds(c)
  {
  }

  /** The constructor: origin offset, which already satisfies the bounds. */
  function New(viewportWidth: real, viewportHeight: real, mapWidth: real, mapHeight: real): (r: Camera)
    ensures InBounds(r) && r.x == 0.0 && r.y == 0.0
  {
    Camera(0.0, 0.0, viewportWidth, viewportHeight, mapWidth, mapHeight)
  }

  /**
   * `follow`: move a fraction `f` of the way toward centring the target, then
   * clamp. Bounds hold for every factor, and a factor of 1 is `centerOn`.
   */
  function Follow(c: Camera, targetX: real, targetY: real, f: real): (r: Camera)
    ensures InBounds(r)
    ensures r.viewportWidth == c.viewportWidth && r.viewportHeight == c.viewportHeight
    ensures r.mapWidth == c.mapWidth && r.mapHeight == c.mapHeight
    ensures var lx := c.x + (targetX - c.viewportWidth / 2.0 - c.x) * f;
            0.0 <= lx <= MaxX(c) ==> r.x == lx
    ensures var ly := c.y + (targetY - c.viewportHeight / 2.0 - c.y) * f;
            0.0 <= ly <= MaxY(c) ==> r.y == ly
    ensures f == 0.0 ==> r == ClampToBounds(c)
    ensures f == 1.0 ==> r == CenterOn(c, targetX, targetY)
  {
    var targetCamX := targetX - c.viewportWidth / 2.0;
    var targetCamY := targetY - c.viewportHeight / 2.0;
    var lx := c.x + (targetCamX - c.x) * f;
    var ly := c.y + (targetCamY - c.y) * f;
    var moved := c.(x := lx, y := ly);
    assert MaxX(moved) == MaxX(c) && MaxY(moved) == MaxY(c);
    ClampToBounds(moved)
  }

  /**
   * `centerOn`: no smoothing. The target lands exactly at the viewport's
   * centre whenever that offset is allowed; otherwise the nearest edge is used.
   */
  function CenterOn(c: Camera, targetX: real, targetY: real): (r: Camera)
    ensures InBounds(r)
    ensures r.viewportWidth == c.viewportWidth && r.viewportHeight == c.viewportHeight
    ensures r.mapWidth == c.mapWidth && r.mapHeight == c.mapHeight
    ensures 0.0 <= targetX - c.viewportWidth / 2.0 <= MaxX(c) ==> r.x + c.viewportWidth / 2.0 == targetX
    ensures 0.0 <= targetY - c.viewportHeight / 2.0 <= MaxY(c) ==> r.y + c.viewportHeight / 2.0 == targetY
    ensures targetX - c.viewportWidth / 2.0 < 0.0 ==> r.x == 0.0
    ensures targetX - c.viewportWidth / 2.0 > MaxX(c) ==> r.x == MaxX(c)
    ensures targetY - c.viewportHeight / 2.0 < 0.0 ==> r.y == 0.0
    ensures targetY - c.viewportHeight / 2.0 > MaxY(c) ==> r.y == MaxY(c)
  {
    ClampToBounds(c.(x := targetX - c.viewportWidth / 2.0, y := targetY - c.viewportHeight / 2.0))
  }

  /** A screen-space point. */
  datatype Point = Point(x: real, y: real)

  /** `worldToScreen`: translating back by the offset recovers the world point. */
  function WorldToScreen(c: Camera, worldX: real, worldY: real): (r: Point)
    ensures r.x + c.x == worldX && r.y + c.y == worldY
  {
    Point(worldX - c.x, worldY - c.y)
  }

  /** The camera's own offset is the screen origin. */
  lemma OriginMapsToZero(c: Camera)
    ensures WorldToScreen(c, c.x, c.y) == Point(0.0, 0.0)
  {
  }

  /** `setMapBounds`: new map size, bounds re-established for it. */
  function SetMapBounds(c: Camera, mapWidth: real, mapHeight: real): (r: Camera)
    ensures InBounds(r) && r.mapWidth == mapWidth && r.mapHeight == mapHeight
    ensures r.viewportWidth == c.viewportWidth && r.viewportHeight == c.viewportHeight
    ensures 0.0 <= c.x <= MaxX(r) ==> r.x == c.x
    ensures 0.0 <= c.y <= MaxY(r) ==> r.y == c.y
  {
    ClampToBounds(c.(mapWidth := mapWidth, mapHeight := mapHeight))
  }

  /** `setViewportSize`: new viewport, bounds re-established for it. */
  function SetViewportSize(c: Camera, viewportWidth: real, viewportHeight: real): (r: Camera)
    ensures InBounds(r) && r.viewportWidth == viewportWidth && r.viewportHeight == viewportHeight
    ensures r.mapWidth == c.mapWidth && r.mapHeight == c.mapHeight
    ensures 0.0 <= c.x <= MaxX(r) ==> r.x == c.x
    ensures 0.0 <= c.y <= MaxY(r) ==> r.y == c.y
  {
    ClampToBounds(c.(viewportWidth := viewportWidth, viewportHeight := viewportHeight))
  }
}
