/**
 * The typed engine's keyboard state: a map from `event.code` to "held",
 * written only for the eight movement codes, and resolved to one direction
 * with vertical priority. `destroy` detaches the listeners and clears the map.
 */
module Input {

  const MovementKeys: set<string> :=
    {"KeyW", "KeyA", "KeyS", "KeyD", "ArrowUp", "ArrowDown", "ArrowLeft", "ArrowRight"}

  /** The movement codes in the insertion order the `Set` iterates. */
  const MovementKeyOrder: seq<string> :=
    ["KeyW", "KeyA", "KeyS", "KeyD", "ArrowUp", "ArrowDown", "ArrowLeft", "ArrowRight"]

  const ArrowKeys: set<string> := {"ArrowUp", "ArrowDown", "ArrowLeft", "ArrowRight"}

  /** The key map, and whether the window listeners are still attached. */
  datatype Input = Input(keys: map<string, bool>, listening: bool)

  /** Only movement codes ever appear in the map. */
  predicate OnlyMovementKeys(s: Input) {
    s.keys.Keys <= MovementKeys
  }

  /** The constructor: empty map, listeners attached. */
  function New(): (r: Input)
    ensures OnlyMovementKeys(r) && r.listening
    ensures forall code :: !IsKeyPressed(r, code)
  {
    Input(map[], true)
  }

  /** Whether the keydown handler calls `preventDefault` (arrow keys only). */
  predicate PreventsDefault(s: Input, code: string) {
    s.listening && code in ArrowKeys
  }

  /** The keydown handler: records `true` for a movement code, ignores the rest. */
  function KeyDown(s: Input, code: string): (r: Input)
    ensures OnlyMovementKeys(s) ==> OnlyMovementKeys(r)
    ensures r.listening == s.listening
    ensures s.listening && code in MovementKeys ==> IsKeyPressed(r, code)
    ensures forall other :: other != code ==> IsKeyPressed(r, other) == IsKeyPressed(s, other)
    ensures !s.listening || code !in MovementKeys ==> r == s
  {
    if s.listening && code in MovementKeys then s.(keys := s.keys[code := true]) else s
  }

  /** The keyup handler: records `false` for a movement code, ignores the rest. */
  function KeyUp(s: Input, code: string): (r: Input)
    ensures OnlyMovementKeys(s) ==> OnlyMovementKeys(r)
    ensures r.listening == s.listening
    ensures s.listening && code in MovementKeys ==> !IsKeyPressed(r, code)
    ensures forall other :: other != code ==> IsKeyPressed(r, other) == IsKeyPressed(s, other)
    ensures !s.listening || code !in MovementKeys ==> r == s
  {
    if s.listening && code in MovementKeys then s.(keys := s.keys[code := false]) else s
  }

  /** `isKeyPressed`: the map holds exactly `true` for the code. */
  predicate IsKeyPressed(s: Input, code: string) {
    code in s.keys && s.keys[code]
  }

  /** A listening key map reads a movement code as pressed from its keydown until its keyup. */
  lemma IsKeyPressedFollowsEvents(s: Input, code: string, other: string)
    requires s.listening && code in MovementKeys && other != code
    ensures IsKeyPressed(KeyDown(s, code), code)
    ensures !IsKeyPressed(KeyUp(KeyDown(s, code), code), code)
    ensures IsKeyPressed(KeyUp(KeyDown(s, code), code), other) == IsKeyPressed(s, other)
  {
  }

  predicate UpHeld(s: Input) { IsKeyPressed(s, "KeyW") || IsKeyPressed(s, "ArrowUp") }
  predicate DownHeld(s: Input) { IsKeyPressed(s, "KeyS") || IsKeyPressed(s, "ArrowDown") }
  predicate LeftHeld(s: Input) { IsKeyPressed(s, "KeyA") || IsKeyPressed(s, "ArrowLeft") }
  predicate RightHeld(s: Input) { IsKeyPressed(s, "KeyD") || IsKeyPressed(s, "ArrowRight") }

  /** A unit direction; y grows downward. */
  datatype Dir = Dir(x: int, y: int)

  /** `getMovementDirection`: up, then down, then left, then right, else none. */
  function GetMovementDirection(s: Input): (d: Dir)
    ensures d.x == 0 || d.y == 0
    ensures -1 <= d.x <= 1 && -1 <= d.y <= 1
    ensures UpHeld(s) ==> d == Dir(0, -1)
    ensures !UpHeld(s) && DownHeld(s) ==> d == Dir(0, 1)
    ensures !UpHeld(s) && !DownHeld(s) && LeftHeld(s) ==> d == Dir(-1, 0)
    ensures !UpHeld(s) && !DownHeld(s) && !LeftHeld(s) && RightHeld(s) ==> d == Dir(1, 0)
    ensures d == Dir(0, 0) <==> !AnyMovementKeyPressed(s)
  {
    if UpHeld(s) then Dir(0, -1)
    else if DownHeld(s) then Dir(0, 1)
    else if LeftHeld(s) then Dir(-1, 0)
    else if RightHeld(s) then Dir(1, 0)
    else Dir(0, 0)
  }

  /** Any vertical key beats any horizontal key. */
  lemma VerticalPriority(s: Input)
    requires UpHeld(s) || DownHeld(s)
    ensures GetMovementDirection(s).x == 0 && GetMovementDirection(s).y != 0
  {
  }

  /** Some movement code reads as pressed. */
  predicate AnyMovementKeyPressed(s: Input) {
    exists code :: code in MovementKeys && IsKeyPressed(s, code)
  }

  /** `isAnyMovementKeyPressed`: the scan over the movement codes with early exit. */
  method IsAnyMovementKeyPressed(s: Input) returns (r: bool)
    ensures r == AnyMovementKeyPressed(s)
  {
    var i := 0;
    while i < |MovementKeyOrder|
      invariant 0 <= i <= |MovementKeyOrder|
      invariant forall j :: 0 <= j < i ==> !IsKeyPressed(s, MovementKeyOrder[j])
    {
      if MovementKeyOrder[i] in s.keys && s.keys[MovementKeyOrder[i]] {
        return true;
      }
      i := i + 1;
    }
    assert forall code :: code in MovementKeys ==> code in MovementKeyOrder;
    return false;
  }

  /** `destroy`: listeners detached and the map cleared. */
  function Destroy(s: Input): (r: Input)
    ensures !r.listening && OnlyMovementKeys(r)
    ensures forall code :: !IsKeyPressed(r, code)
    ensures GetMovementDirection(r) == Dir(0, 0)
  {
    Input(map[], false)
  }

  /** Key events after `destroy` change nothing, so no key is ever pressed again. */
  lemma DestroyedStaysSilent(s: Input, code: string)
    requires !s.listening
    ensures KeyDown(s, code) == s && KeyUp(s, code) == s
  {
  }
}
