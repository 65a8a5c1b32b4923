/**
 * The typed engine's frame loop. The browser's animation-frame scheduler is
 * outside the model: `Start` receives the clock reading and the frame handle
 * the scheduler hands out, and each delivered frame is one `Tick` that reports
 * the callbacks it makes, in order.
 */
module GameLoop {
  /** Largest time step, in seconds, handed to the update callback. */
  const MAX_DELTA: real := 0.1

  datatype Loop = Loop(lastTime: real, running: bool, animationFrameId: int)

  /** One callback made by a frame: `onUpdate(deltaTime)` or `onRender()`. */
  datatype Call = Update(deltaTime: real) | Render

  /** A freshly constructed loop: stopped, no clock reading, no pending frame. */
  function New(): (l: Loop)
    ensures !IsRunning(l) && l.lastTime == 0.0 && l.animationFrameId == 0
  {
    Loop(0.0, false, 0)
  }

  function IsRunning(l: Loop): bool
  {
    l.running
  }

  /** `isRunning` reports the last of `start` and `stop`. */
  lemma IsRunningFollowsStartStop(l: Loop, now: real, frameId: int)
    ensures IsRunning(Start(l, now, frameId)) && !IsRunning(Stop(l))
    ensures !IsRunning(Stop(Start(l, now, frameId))) && IsRunning(Start(Stop(l), now, frameId))
  {
  }

  /** `start()`: a no-op when already running, else records the clock and the scheduled frame. */
  function Start(l: Loop, now: real, frameId: int): (r: Loop)
    ensures l.running ==> r == l
    ensures !l.running ==> r.running && r.lastTime == now && r.animationFrameId == frameId
  {
    if l.running then l else Loop(now, true, frameId)
  }

  /** `stop()`: a no-op when stopped, else stops and forgets the pending frame. */
  function Stop(l: Loop): (r: Loop)
    ensures !r.running
    ensures !l.running ==> r == l
    ensures l.running ==> r.lastTime == l.lastTime && r.animationFrameId == 0
  {
    if !l.running then l
    else if l.animationFrameId != 0 then Loop(l.lastTime, false, 0)
    else Loop(l.lastTime, false, l.animationFrameId)
  }

  /** `Math.min(deltaTime, MAX_DELTA)`. */
  function ClampDelta(deltaTime: real): (c: real)
    ensures c <= MAX_DELTA && c <= deltaTime
    ensures c == deltaTime || c == MAX_DELTA
  {
    if deltaTime < MAX_DELTA then deltaTime else MAX_DELTA
  }

  /**
   * `loop(currentTime)`: a stopped loop ignores the frame; a running one
   * updates with the clamped elapsed seconds, renders, and schedules `nextId`.
   */
  function Tick(l: Loop, currentTime: real, nextId: int): (res: (Loop, seq<Call>))
    ensures !l.running ==> res == (l, [])
    ensures l.running ==>
              res.0 == Loop(currentTime, true, nextId) &&
              res.1 == [Update(ClampDelta((currentTime - l.lastTime) / 1000.0)), Render]
  {
    if !l.running then (l, [])
    else
      var deltaTime := (currentTime - l.lastTime) / 1000.0;
      (Loop(currentTime, true, nextId), [Update(ClampDelta(deltaTime)), Render])
  }

  /** Deliver the frames at `times` in order, frame `i` scheduling handle `ids[i]`. */
  function RunFrames(l: Loop, times: seq<real>, ids: seq<int>): (res: (Loop, seq<Call>))
    requires |times| == |ids|
    decreases |times|
  {
    if |times| == 0 then (l, [])
    else
      var step := Tick(l, times[0], ids[0]);
      var rest := RunFrames(step.0, times[1..], ids[1..]);
      (rest.0, step.1 + rest.1)
  }

  /** Total simulated seconds handed to `onUpdate` by a sequence of calls. */
  function Simulated(calls: seq<Call>): real
  {
    if |calls| == 0 then 0.0
    else (if calls[0].Update? then calls[0].deltaTime else 0.0) + Simulated(calls[1..])
  }

  lemma {:induction false} SimulatedAppend(a: seq<Call>, b: seq<Call>)
    ensures Simulated(a + b) == Simulated(a) + Simulated(b)
  {
    if |a| == 0 {
      assert a + b == b;
    } else {
      assert (a + b)[1..] == a[1..] + b;
      SimulatedAppend(a[1..], b);
    }
  }

  /** A running loop makes exactly one update and one render per frame, in that order. */
  lemma {:induction false} RunningFramesCallEachOnce(l: Loop, times: seq<real>, ids: seq<int>)
    requires |times| == |ids| && l.running
    ensures var res := RunFrames(l, times, ids);
            res.0.running && |res.1| == 2 * |times| &&
            forall i :: 0 <= i < |times| ==> res.1[2 * i].Update? && res.1[2 * i + 1] == Render
    decreases |times|
  {
    if |times| > 0 {
      var step := Tick(l, times[0], ids[0]);
      RunningFramesCallEachOnce(step.0, times[1..], ids[1..]);
      var rest := RunFrames(step.0, times[1..], ids[1..]);
      var all := RunFrames(l, times, ids).1;
      assert all == step.1 + rest.1;
      forall i | 0 <= i < |times|
        ensures all[2 * i].Update? && all[2 * i + 1] == Render
      {
        if i > 0 {
          assert all[2 * i] == rest.1[2 * (i - 1)];
          assert all[2 * i + 1] == rest.1[2 * (i - 1) + 1];
        }
      }
    }
  }

  /** A stopped loop ignores every frame delivered to it. */
  lemma {:induction false} StoppedIgnoresFrames(l: Loop, times: seq<real>, ids: seq<int>)
    requires |times| == |ids| && !l.running
    ensures RunFrames(l, times, ids) == (l, [])
    decreases |times|
  {
    if |times| > 0 {
      var step := Tick(l, times[0], ids[0]);
      assert step == (l, []);
      StoppedIgnoresFrames(l, times[1..], ids[1..]);
      var rest := RunFrames(step.0, times[1..], ids[1..]);
      assert rest == (l, []);
      assert step.1 + rest.1 == [];
    }
  }

  /** Clock readings that never go backwards, none earlier than `from`. */
  predicate Monotone(from: real, times: seq<real>)
  {
    (|times| > 0 ==> from <= times[0]) &&
    forall i, j :: 0 <= i < j < |times| ==> times[i] <= times[j]
  }

  /**
   * Clamping only ever drops time: with monotone clock readings, the
   * simulation never runs ahead of the wall clock since `start`.
   */
  lemma {:induction false} SimulationNeverRunsAhead(l: Loop, times: seq<real>, ids: seq<int>)
    requires |times| == |ids| && l.running && Monotone(l.lastTime, times)
    ensures var res := RunFrames(l, times, ids);
            0.0 <= Simulated(res.1) <= (res.0.lastTime - l.lastTime) / 1000.0
    decreases |times|
  {
    if |times| > 0 {
      var step := Tick(l, times[0], ids[0]);
      assert Monotone(step.0.lastTime, times[1..]);
      SimulationNeverRunsAhead(step.0, times[1..], ids[1..]);
      var rest := RunFrames(step.0, times[1..], ids[1..]);
      SimulatedAppend(step.1, rest.1);
      assert Simulated(step.1) == ClampDelta((times[0] - l.lastTime) / 1000.0);
    }
  }

  /** Every update in `calls` is at most `MAX_DELTA` seconds. */
  predicate Clamped(calls: seq<Call>)
  {
    forall i :: 0 <= i < |calls| ==> (calls[i].Update? ==> calls[i].deltaTime <= MAX_DELTA)
  }

  /** Each update is bounded by `MAX_DELTA`, whatever gap separates the frames. */
  lemma {:induction false} UpdatesAreClamped(l: Loop, times: seq<real>, ids: seq<int>)
    requires |times| == |ids|
    ensures Clamped(RunFrames(l, times, ids).1)
    decreases |times|
  {
    if |times| > 0 {
      var step := Tick(l, times[0], ids[0]);
      UpdatesAreClamped(step.0, times[1..], ids[1..]);
      var rest := RunFrames(step.0, times[1..], ids[1..]);
      var calls := RunFrames(l, times, ids).1;
      assert calls == step.1 + rest.1;
      forall i | 0 <= i < |calls|
        ensures calls[i].Update? ==> calls[i].deltaTime <= MAX_DELTA
      {
        if i >= |step.1| {
          assert calls[i] == rest.1[i - |step.1|];
        } else {
          var dt := (times[0] - l.lastTime) / 1000.0;
          assert step.1 == [Update(ClampDelta(dt)), Render];
          assert calls[i] == step.1[i];
          assert ClampDelta(dt) <= MAX_DELTA;
        }
      }
    }
  }
}
