/**
 * The talks carousel: the markup `renderCoverFlow` emits, and the index
 * state machine `initCoverFlow` wires to buttons, dots, slides, keys,
 * touch and the wheel. The DOM is reduced to what `updateSlides` writes
 * into it; the two timers are events the environment delivers.
 */
module CoverFlow {
  import opened Wrappers

  /** A slide's `data-offset`: its distance from the centre, or hidden. */
  datatype Offset = Shown(diff: int) | Hidden

  /** What `updateSlides` writes: slide offsets, button states and active dots, by index. */
  datatype View = View(offsets: seq<Offset>, prevDisabled: bool, nextDisabled: bool, activeDots: seq<bool>)

  /** One slide of the initial markup; title, venue and date are left out. */
  datatype RenderedSlide = RenderedSlide(offset: Offset, gradient: string)

  /** The initial markup of `renderCoverFlow`. */
  datatype Render = Render(slides: seq<RenderedSlide>, activeDots: seq<bool>, prevDisabled: bool, nextDisabled: bool)

  /** The closure state of `initCoverFlow`. */
  datatype Carousel = Carousel(
    total: nat,
    current: int,
    touchStartX: real,
    touchStartY: real,
    isSwiping: bool,
    wheelCooldown: bool,
    wheelAccum: real,
    wheelTimerArmed: bool)

  datatype Event =
    | PrevClick
    | NextClick
    | DotClick(dot: int)
    | SlideClick(slide: int)
    | KeyDown(key: string)
    | TouchStart(x: real, y: real)
    | TouchMove(x: real, y: real)
    | TouchEnd(x: real)
    | Wheel(deltaX: real, deltaY: real)
    | CooldownElapsed   // the 400 ms cooldown timer fires
    | WheelPauseElapsed // the 300 ms accumulator timer fires

  /** The state after an event and whether the handler called `preventDefault`. */
  datatype Outcome = Outcome(carousel: Carousel, preventDefault: bool)

  const SLIDE_REACH: int := 2
  const SWIPE_START: real := 10.0
  const SWIPE_THRESHOLD: real := 50.0
  const WHEEL_THRESHOLD: real := 120.0

  function Gradients(): seq<string>
  {
    ["linear-gradient(135deg, #5b8db8 0%, #3d6d94 100%)",
     "linear-gradient(135deg, #7a9bb5 0%, #5a7f9a 100%)",
     "linear-gradient(135deg, #5a9aad 0%, #3f7d90 100%)",
     "linear-gradient(135deg, #4a6178 0%, #384d62 100%)",
     "linear-gradient(135deg, #7a7aaa 0%, #5c5c8a 100%)",
     "linear-gradient(135deg, #5a9090 0%, #3f7272 100%)"]
  }

  function Abs(v: real): real
  {
    if v < 0.0 then -v else v
  }

  // ---------------------------------------------------------------------
  // Markup and view
  // ---------------------------------------------------------------------

  /** `renderCoverFlow` for `n` talks: slide 0 centred, the rest hidden, dot 0 active. */
  function RenderCoverFlow(n: nat): (r: Render)
    ensures |r.slides| == |r.activeDots| == n
    ensures forall i :: 0 <= i < n ==> r.slides[i].gradient == Gradients()[i % 6]
    ensures forall i :: 0 <= i < n ==> (r.slides[i].offset == Shown(0) <==> i == 0)
    ensures forall i :: 0 <= i < n ==> (r.slides[i].offset == Hidden <==> i != 0)
    ensures forall i :: 0 <= i < n ==> (r.activeDots[i] <==> i == 0)
    ensures r.prevDisabled && (r.nextDisabled <==> n <= 1)
  {
    Render(
      seq(n, i requires 0 <= i < n => RenderedSlide(if i == 0 then Shown(0) else Hidden, Gradients()[i % 6])),
      seq(n, i requires 0 <= i < n => i == 0),
      true,
      n <= 1)
  }

  /** The `data-offset` of slide `idx` when `current` is centred. */
  function SlideOffset(idx: int, current: int): (o: Offset)
    ensures o.Shown? ==> -SLIDE_REACH <= o.diff <= SLIDE_REACH && current + o.diff == idx
  {
    var diff := idx - current;
    if -SLIDE_REACH <= diff <= SLIDE_REACH then Shown(diff) else Hidden
  }

  /** An offset names the slide's position relative to the centre, and the slides near it are the shown ones. */
  lemma SlideOffsetMeaning(idx: int, current: int)
    ensures SlideOffset(idx, current).Shown? <==> -SLIDE_REACH <= idx - current <= SLIDE_REACH
    ensures SlideOffset(idx, current).Shown? ==> current + SlideOffset(idx, current).diff == idx
    ensures SlideOffset(idx, current) == Shown(0) <==> idx == current
  {
  }

  /** `updateSlides`: what the carousel shows with `current` centred. */
  function UpdateSlides(total: nat, current: int): (v: View)
    ensures |v.offsets| == |v.activeDots| == total
    ensures forall i :: 0 <= i < total ==> v.offsets[i] == SlideOffset(i, current)
    ensures v.prevDisabled <==> current == 0
    ensures v.nextDisabled <==> current == total - 1
  {
    View(
      seq(total, i requires 0 <= i < total => SlideOffset(i, current)),
      current == 0,
      current == total - 1,
      seq(total, i requires 0 <= i < total => i == current))
  }

  /** The indices of the active dots. */
  function ActiveDots(v: View): set<int>
  {
    set i | 0 <= i < |v.activeDots| && v.activeDots[i]
  }

  /** The indices of the slides that are not hidden. */
  function ShownSlides(v: View): set<int>
  {
    set i | 0 <= i < |v.offsets| && v.offsets[i].Shown?
  }

  /**
   * With the index in range, exactly the current dot is active, exactly the
   * current slide is centred, and the shown slides are those within two of it.
   */
  lemma ViewOfCurrent(total: nat, current: int)
    requires 0 <= current < total
    ensures ActiveDots(UpdateSlides(total, current)) == {current}
    ensures forall i :: 0 <= i < total ==> (UpdateSlides(total, current).offsets[i] == Shown(0) <==> i == current)
    ensures forall i :: 0 <= i < total ==>
              (i in ShownSlides(UpdateSlides(total, current)) <==> current - SLIDE_REACH <= i <= current + SLIDE_REACH)
  {
    var v := UpdateSlides(total, current);
    assert current in ActiveDots(v);
    forall i | 0 <= i < total
      ensures v.offsets[i] == Shown(0) <==> i == current
    {
      SlideOffsetMeaning(i, current);
    }
  }

  /**
   * The markup agrees with the first `updateSlides` on buttons and dots; of
   * the slides, only the two after the first differ, which the markup hides.
   */
  lemma RenderThenInit(n: nat)
    requires n > 0
    ensures RenderCoverFlow(n).prevDisabled == UpdateSlides(n, 0).prevDisabled
    ensures RenderCoverFlow(n).nextDisabled == UpdateSlides(n, 0).nextDisabled
    ensures RenderCoverFlow(n).activeDots == UpdateSlides(n, 0).activeDots
    ensures forall i :: 0 <= i < n ==>
              (RenderCoverFlow(n).slides[i].offset == UpdateSlides(n, 0).offsets[i] <==> i == 0 || i > SLIDE_REACH)
  {
    var r, v := RenderCoverFlow(n), UpdateSlides(n, 0);
    assert r.activeDots == v.activeDots by {
      forall i | 0 <= i < n
        ensures r.activeDots[i] == v.activeDots[i]
      {
      }
    }
  }

  // ---------------------------------------------------------------------
  // Navigation
  // ---------------------------------------------------------------------

  /** Every carousel `initCoverFlow` sets up has a slide and a current index among them. */
  predicate Inv(c: Carousel)
  {
    0 <= c.current < c.total
  }

  /** `initCoverFlow` for `total` slides: no handlers at all when there are none. */
  function Init(total: nat): (r: Option<Carousel>)
    ensures r.None? <==> total == 0
    ensures r.Some? ==> Inv(r.value) && r.value.current == 0 && r.value.total == total
  {
    if total == 0 then None
    else Some(Carousel(total, 0, 0.0, 0.0, false, false, 0.0, false))
  }

  /** `goTo(index)`: move to an index in range; ignore any other. */
  function GoTo(c: Carousel, index: int): (r: Carousel)
    ensures 0 <= index < c.total ==> r == c.(current := index)
    ensures !(0 <= index < c.total) ==> r == c
    ensures Inv(c) ==> Inv(r)
  {
    if index < 0 || index >= c.total then c else c.(current := index)
  }

  /** After an event the carousel is still in range, so `goTo` never leaves the slides. */
  lemma GoToStaysInRange(c: Carousel, index: int)
    requires Inv(c)
    ensures 0 <= GoTo(c, index).current < c.total
    ensures GoTo(c, index).current == index || GoTo(c, index).current == c.current
  {
  }

  /** Prev at the first slide and next at the last do nothing, which is why their buttons are disabled. */
  lemma DisabledButtonsDoNothing(c: Carousel)
    requires Inv(c)
    ensures UpdateSlides(c.total, c.current).prevDisabled ==> GoTo(c, c.current - 1) == c
    ensures UpdateSlides(c.total, c.current).nextDisabled ==> GoTo(c, c.current + 1) == c
    ensures !UpdateSlides(c.total, c.current).prevDisabled ==> GoTo(c, c.current - 1).current == c.current - 1
    ensures !UpdateSlides(c.total, c.current).nextDisabled ==> GoTo(c, c.current + 1).current == c.current + 1
  {
  }

  /** The wheel's delta: the horizontal one when it dominates, else the vertical one. */
  function WheelDelta(deltaX: real, deltaY: real): real
  {
    if Abs(deltaX) > Abs(deltaY) then deltaX else deltaY
  }

  /** The wheel handler, accumulating deltas and stepping once per threshold outside the cooldown. */
  function OnWheel(c: Carousel, deltaX: real, deltaY: real): (o: Outcome)
    ensures o.carousel.wheelTimerArmed && o.carousel.total == c.total
  {
    var delta := WheelDelta(deltaX, deltaY);
    var acc := c.wheelAccum + delta;
    var moved :=
      if !c.wheelCooldown && Abs(acc) >= WHEEL_THRESHOLD then
        GoTo(c, if acc > 0.0 then c.current + 1 else c.current - 1).(wheelAccum := 0.0, wheelCooldown := true)
      else c.(wheelAccum := acc);
    var r := moved.(wheelTimerArmed := true);
    var block := (r.current > 0 || delta > 0.0) && (r.current < r.total - 1 || delta < 0.0);
    Outcome(r, block)
  }

  /** The page scrolls under the wheel only when the carousel is at an end and the wheel pushes past it. */
  lemma WheelScrollsPageOnlyPastEnds(c: Carousel, deltaX: real, deltaY: real)
    ensures var o := OnWheel(c, deltaX, deltaY);
            var d := WheelDelta(deltaX, deltaY);
            !o.preventDefault <==>
              (o.carousel.current <= 0 && d <= 0.0) || (o.carousel.current >= c.total - 1 && d >= 0.0)
  {
  }

  /** The touch-end handler: a recognised swipe of more than 50 pixels steps once. */
  function OnTouchEnd(c: Carousel, x: real): (r: Carousel)
    ensures r.total == c.total && (Inv(c) ==> Inv(r))
    ensures !c.isSwiping ==> r == c
    ensures r.current == c.current || r.current == c.current + 1 || r.current == c.current - 1
  {
    if !c.isSwiping then c
    else
      var diff := c.touchStartX - x;
      if diff > SWIPE_THRESHOLD then GoTo(c, c.current + 1)
      else if diff < -SWIPE_THRESHOLD then GoTo(c, c.current - 1)
      else c
  }

  /** One event delivered to the carousel. */
  function Step(c: Carousel, e: Event): (o: Outcome)
    ensures o.carousel.total == c.total
    ensures Inv(c) ==> Inv(o.carousel)
  {
    match e
    case PrevClick => Outcome(GoTo(c, c.current - 1), false)
    case NextClick => Outcome(GoTo(c, c.current + 1), false)
    case DotClick(i) => Outcome(GoTo(c, i), false)
    case SlideClick(i) => if i != c.current then Outcome(GoTo(c, i), true) else Outcome(c, false)
    case KeyDown(key) =>
      if key == "ArrowLeft" then Outcome(GoTo(c, c.current - 1), true)
      else if key == "ArrowRight" then Outcome(GoTo(c, c.current + 1), true)
      else Outcome(c, false)
    case TouchStart(x, y) => Outcome(c.(touchStartX := x, touchStartY := y, isSwiping := false), false)
    case TouchMove(x, y) =>
      if !c.isSwiping && Abs(x - c.touchStartX) > Abs(y - c.touchStartY) && Abs(x - c.touchStartX) > SWIPE_START then
        Outcome(c.(isSwiping := true), false)
      else Outcome(c, false)
    case TouchEnd(x) => Outcome(OnTouchEnd(c, x), false)
    case Wheel(dx, dy) => OnWheel(c, dx, dy)
    case CooldownElapsed => Outcome(c.(wheelCooldown := false), false)
    case WheelPauseElapsed =>
      if c.wheelTimerArmed then Outcome(c.(wheelAccum := 0.0, wheelTimerArmed := false), false)
      else Outcome(c, false)
  }

  /** The carousel after a run of events. */
  function Steps(c: Carousel, events: seq<Event>): Carousel
    decreases |events|
  {
    if |events| == 0 then c else Steps(Step(c, events[0]).carousel, events[1..])
  }

  /** However the visitor interacts, the current index stays among the slides. */
  lemma {:induction false} StepsKeepInv(c: Carousel, events: seq<Event>)
    requires Inv(c)
    ensures Inv(Steps(c, events)) && Steps(c, events).total == c.total
    decreases |events|
  {
    if |events| > 0 {
      StepsKeepInv(Step(c, events[0]).carousel, events[1..]);
    }
  }

  /** Outside the cooldown, a wheel event that takes the total past 120 steps toward its sign and starts the cooldown. */
  lemma WheelPastThresholdSteps(c: Carousel, deltaX: real, deltaY: real)
    requires !c.wheelCooldown
    requires Abs(c.wheelAccum + WheelDelta(deltaX, deltaY)) >= WHEEL_THRESHOLD
    ensures var r := Step(c, Wheel(deltaX, deltaY)).carousel;
            r.wheelAccum == 0.0 && r.wheelCooldown &&
            r.current == GoTo(c, if c.wheelAccum + WheelDelta(deltaX, deltaY) > 0.0 then c.current + 1 else c.current - 1).current
  {
  }

  /** Otherwise the wheel only accumulates: the index stays where it is. */
  lemma WheelBelowThresholdAccumulates(c: Carousel, deltaX: real, deltaY: real)
    requires c.wheelCooldown || Abs(c.wheelAccum + WheelDelta(deltaX, deltaY)) < WHEEL_THRESHOLD
    ensures var r := Step(c, Wheel(deltaX, deltaY)).carousel;
            r.current == c.current && r.wheelAccum == c.wheelAccum + WheelDelta(deltaX, deltaY) &&
            r.wheelCooldown == c.wheelCooldown
  {
  }

  /** While the cooldown lasts, no run of wheel events moves the carousel. */
  lemma {:induction false} CooldownHoldsIndex(c: Carousel, deltas: seq<(real, real)>)
    requires c.wheelCooldown
    ensures Steps(c, WheelEvents(deltas)).current == c.current
    ensures Steps(c, WheelEvents(deltas)).wheelCooldown
    decreases |deltas|
  {
    if |deltas| > 0 {
      var e := WheelEvents(deltas);
      assert e[0] == Wheel(deltas[0].0, deltas[0].1) && e[1..] == WheelEvents(deltas[1..]);
      CooldownHoldsIndex(Step(c, e[0]).carousel, deltas[1..]);
    }
  }

  function WheelEvents(deltas: seq<(real, real)>): (r: seq<Event>)
    ensures |r| == |deltas|
    ensures forall i :: 0 <= i < |deltas| ==> r[i] == Wheel(deltas[i].0, deltas[i].1)
  {
    seq(|deltas|, i requires 0 <= i < |deltas| => Wheel(deltas[i].0, deltas[i].1))
  }

  /**
   * A gesture that starts, moves mostly sideways by more than 10 pixels, and
   * ends more than 50 pixels to the left of its start goes to the next slide;
   * to the right, to the previous one.
   */
  lemma SwipeSteps(c: Carousel, x0: real, y0: real, x1: real, y1: real, x2: real)
    requires Abs(x1 - x0) > Abs(y1 - y0) && Abs(x1 - x0) > SWIPE_START
    ensures var r := Steps(c, [TouchStart(x0, y0), TouchMove(x1, y1), TouchEnd(x2)]);
            (x0 - x2 > SWIPE_THRESHOLD ==> r.current == GoTo(c, c.current + 1).current) &&
            (x0 - x2 < -SWIPE_THRESHOLD ==> r.current == GoTo(c, c.current - 1).current) &&
            (-SWIPE_THRESHOLD <= x0 - x2 <= SWIPE_THRESHOLD ==> r.current == c.current)
  {
    var es := [TouchStart(x0, y0), TouchMove(x1, y1), TouchEnd(x2)];
    var c1 := Step(c, es[0]).carousel;
    var c2 := Step(c1, es[1]).carousel;
    assert c2.isSwiping && c2.touchStartX == x0 && c2.current == c.current;
    assert es[1..] == [TouchMove(x1, y1), TouchEnd(x2)];
    assert es[1..][1..] == [TouchEnd(x2)];
    assert Steps(c, es) == Steps(c2, [TouchEnd(x2)]);
    assert Steps(c2, [TouchEnd(x2)]) == Steps(OnTouchEnd(c2, x2), []);
  }

  /** A touch that ends without a qualifying move changes nothing about the index. */
  lemma TapDoesNotMove(c: Carousel, x0: real, y0: real, x2: real)
    ensures Steps(c, [TouchStart(x0, y0), TouchEnd(x2)]).current == c.current
  {
    var es := [TouchStart(x0, y0), TouchEnd(x2)];
    var c1 := Step(c, es[0]).carousel;
    assert es[1..] == [TouchEnd(x2)];
    assert Steps(c, es) == Steps(c1, [TouchEnd(x2)]);
    assert Steps(c1, [TouchEnd(x2)]) == Steps(OnTouchEnd(c1, x2), []);
  }
}
