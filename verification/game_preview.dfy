/**
 * The landing page's animated preview: a square walking back and forth
 * along the path, turning at the path's ends. Drawing the scene is not
 * modelled; each tick of the 125 ms interval is one `Update`.
 */
module GamePreview {
  /** `PlayerState`: position in canvas pixels and the heading, +1 or -1. */
  datatype PlayerState = PlayerState(x: int, y: int, direction: int)

  const STEP: int := 2
  const RIGHT_EDGE: int := 240
  const LEFT_EDGE: int := 60
  const PATH_Y: int := 156

  /** The state `startPreviewAnimation` begins from. */
  function Initial(): PlayerState
  {
    PlayerState(150, PATH_Y, 1)
  }

  /** `updatePlayer`: step two pixels along the heading, then turn at either edge. */
  function Update(p: PlayerState): (r: PlayerState)
    ensures r.x == p.x + 2 * p.direction && r.y == p.y
    ensures r.x >= RIGHT_EDGE ==> r.direction == -1
    ensures LEFT_EDGE < r.x < RIGHT_EDGE ==> r.direction == p.direction
    ensures r.x <= LEFT_EDGE ==> r.direction == 1
  {
    var x := p.x + p.direction * STEP;
    if x >= RIGHT_EDGE then PlayerState(x, p.y, -1)
    else if x <= LEFT_EDGE then PlayerState(x, p.y, 1)
    else PlayerState(x, p.y, p.direction)
  }

  /**
   * The states the preview reaches: on the path, an even column between the
   * edges, heading +1 or -1, and already turned when standing on an edge.
   */
  predicate Inv(p: PlayerState)
  {
    p.y == PATH_Y && LEFT_EDGE <= p.x <= RIGHT_EDGE && p.x % 2 == 0 &&
    (p.direction == 1 || p.direction == -1) &&
    (p.x == RIGHT_EDGE ==> p.direction == -1) && (p.x == LEFT_EDGE ==> p.direction == 1)
  }

  lemma InitialInv()
    ensures Inv(Initial())
  {
  }

  /** One tick keeps the square on the path between the edges. */
  lemma UpdateKeepsInv(p: PlayerState)
    requires Inv(p)
    ensures Inv(Update(p))
  {
  }

  /** The state after `n` ticks. */
  function Updates(p: PlayerState, n: nat): PlayerState
    decreases n
  {
    if n == 0 then p else Updates(Update(p), n - 1)
  }

  /** From the initial state the square never leaves [60, 240], however long the preview runs. */
  lemma {:induction false} StaysOnPath(p: PlayerState, n: nat)
    requires Inv(p)
    ensures Inv(Updates(p, n))
    ensures LEFT_EDGE <= Updates(p, n).x <= RIGHT_EDGE && Updates(p, n).y == p.y
    decreases n
  {
    if n > 0 {
      UpdateKeepsInv(p);
      StaysOnPath(Update(p), n - 1);
    }
  }

  lemma NeverLeavesPath(n: nat)
    ensures LEFT_EDGE <= Updates(Initial(), n).x <= RIGHT_EDGE
    ensures Updates(Initial(), n).y == PATH_Y
  {
    InitialInv();
    StaysOnPath(Initial(), n);
  }

  /** Walking away from an edge the square keeps its heading until it reaches the other one. */
  lemma {:induction false} WalksToEdge(p: PlayerState, n: nat)
    requires Inv(p) && p.direction == 1 && p.x + 2 * n < RIGHT_EDGE
    ensures Updates(p, n) == PlayerState(p.x + 2 * n, p.y, 1)
    decreases n
  {
    if n > 0 {
      StepsInside(p);
      WalksToEdge(Update(p), n - 1);
    }
  }

  lemma StepsInside(p: PlayerState)
    requires Inv(p) && p.direction == 1 && p.x + 2 < RIGHT_EDGE
    ensures Update(p) == PlayerState(p.x + 2, p.y, 1) && Inv(Update(p))
  {
  }

  /** The first turn: 45 ticks after the start the square stands on the right edge, heading back. */
  lemma FirstTurn()
    ensures Updates(Initial(), 45) == PlayerState(RIGHT_EDGE, PATH_Y, -1)
  {
    InitialInv();
    WalksToEdge(Initial(), 44);
    UpdatesSplit(Initial(), 44, 1);
  }

  lemma {:induction false} UpdatesSplit(p: PlayerState, a: nat, b: nat)
    ensures Updates(p, a + b) == Updates(Updates(p, a), b)
    decreases a
  {
    if a > 0 {
      UpdatesSplit(Update(p), a - 1, b);
    }
  }
}
