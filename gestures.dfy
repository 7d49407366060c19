/** The touch gesture recogniser of src/hooks/useGestures.ts. The hook's refs
    (touch start, last touch, tap count, the two timer handles, initial
    finger spread, last scale) and its gesture state are the fields of
    `GestureRecognizer`; touchstart, touchmove and touchend are its methods.
    Scheduled timeouts are kept in `timers`; the browser firing one is the
    `FireTimer` event. Square roots are avoided: a distance is compared with
    a threshold through its square, and the finger spread of a two-finger
    touch (a square root of the browser's coordinates) is an input. */
module Gestures {
  import opened Common

  /** The recogniser's tuning. */
  datatype GestureConfig = GestureConfig(
    swipeThreshold: real,
    pinchThreshold: real,
    doubleTapDelay: int,
    longPressDelay: int,
    velocityThreshold: real)

  const DEFAULT_CONFIG := GestureConfig(50.0, 0.1, 300, 500, 0.5)

  /** The caller's partial configuration: an absent field keeps the default. */
  datatype ConfigOverrides = ConfigOverrides(
    swipeThreshold: Option<real>,
    pinchThreshold: Option<real>,
    doubleTapDelay: Option<int>,
    longPressDelay: Option<int>,
    velocityThreshold: Option<real>)

  function Pick<T>(o: Option<T>, d: T): T {
    if o.Some? then o.value else d
  }

  /** `{ ...defaultConfig, ...config }`. */
  function Merge(o: ConfigOverrides): (c: GestureConfig)
    ensures c.swipeThreshold == (if o.swipeThreshold.Some? then o.swipeThreshold.value else 50.0)
    ensures c.pinchThreshold == (if o.pinchThreshold.Some? then o.pinchThreshold.value else 0.1)
    ensures c.doubleTapDelay == (if o.doubleTapDelay.Some? then o.doubleTapDelay.value else 300)
    ensures c.longPressDelay == (if o.longPressDelay.Some? then o.longPressDelay.value else 500)
    ensures c.velocityThreshold == (if o.velocityThreshold.Some? then o.velocityThreshold.value else 0.5)
  {
    GestureConfig(
      Pick(o.swipeThreshold, DEFAULT_CONFIG.swipeThreshold),
      Pick(o.pinchThreshold, DEFAULT_CONFIG.pinchThreshold),
      Pick(o.doubleTapDelay, DEFAULT_CONFIG.doubleTapDelay),
      Pick(o.longPressDelay, DEFAULT_CONFIG.longPressDelay),
      Pick(o.velocityThreshold, DEFAULT_CONFIG.velocityThreshold))
  }

  /** Overriding one field leaves the four others at what the rest of the
      configuration says. */
  lemma MergeFieldwise(o: ConfigOverrides, v: real)
    ensures Merge(o.(swipeThreshold := Some(v))) == Merge(o).(swipeThreshold := v)
    ensures Merge(o.(pinchThreshold := Some(v))) == Merge(o).(pinchThreshold := v)
    ensures Merge(ConfigOverrides(None, None, None, None, None)) == DEFAULT_CONFIG
  {
  }

  /** Whether a distance whose square is `distSq` is above `threshold`. */
  predicate Exceeds(distSq: real, threshold: real) {
    threshold < 0.0 || distSq > threshold * threshold
  }

  /** The squared comparison agrees with comparing the distance itself. */
  lemma ExceedsIsDistance(dx: real, dy: real, distance: real, threshold: real)
    requires distance >= 0.0 && distance * distance == dx * dx + dy * dy
    ensures Exceeds(dx * dx + dy * dy, threshold) <==> distance > threshold
  {
    if threshold >= 0.0 {
      var gap := distance * distance - threshold * threshold;
      assert gap == (distance - threshold) * (distance + threshold);
      if distance > threshold {
        ProductPositive(distance - threshold, distance + threshold);
      } else {
        assert gap == -((threshold - distance) * (distance + threshold));
        ProductNonNegative(threshold - distance, distance + threshold);
      }
    }
  }

  lemma ProductPositive(a: real, b: real)
    requires a > 0.0 && b > 0.0
    ensures a * b > 0.0
  {
  }

  lemma ProductNonNegative(a: real, b: real)
    requires a >= 0.0 && b >= 0.0
    ensures a * b >= 0.0
  {
  }

  datatype Point = Point(x: real, y: real)

  /** A touch position with the time it was seen. */
  datatype TouchPoint = TouchPoint(x: real, y: real, time: int)

  datatype GestureType = Swipe | Pinch | Tap | DoubleTap | LongPress | Pan

  datatype Direction = Up | Down | Left | Right

  /** The gesture state the hook returns. The distance is kept squared. */
  datatype GestureState = GestureState(
    isGesturing: bool,
    gestureType: Option<GestureType>,
    direction: Option<Direction>,
    distanceSq: real,
    scale: real,
    center: Point)

  const IDLE := GestureState(false, None, None, 0.0, 1.0, Point(0.0, 0.0))

  /** The callbacks the recogniser invokes. */
  datatype Callback =
    | SwipedLeft | SwipedRight | SwipedUp | SwipedDown
    | PinchedIn(scale: real) | PinchedOut(scale: real)
    | DoubleTapped | LongPressed
    | Panned(dx: real, dy: real)
    | GestureStarted(kind: GestureType)
    | GestureEnded

  /** `getTouchCenter`: the origin without touches, the touch itself for
      one, the midpoint of the first two otherwise. */
  function Center(touches: seq<Point>): (c: Point)
    ensures |touches| == 1 ==> c == touches[0]
    ensures |touches| >= 2 ==> c.x - touches[0].x == touches[1].x - c.x && c.y - touches[0].y == touches[1].y - c.y
  {
    if |touches| == 0 then Point(0.0, 0.0)
    else if |touches| == 1 then touches[0]
    else Point((touches[0].x + touches[1].x) / 2.0, (touches[0].y + touches[1].y) / 2.0)
  }

  function Abs(x: real): real { if x < 0.0 then -x else x }

  /** The direction of a finished swipe: horizontal when it moved further
      sideways than up or down, vertical otherwise (ties included). */
  function SwipeDirection(dx: real, dy: real): (d: Direction)
    ensures d == Right <==> Abs(dx) > Abs(dy) && dx > 0.0
    ensures d == Left <==> Abs(dx) > Abs(dy) && dx <= 0.0
    ensures d == Down <==> Abs(dx) <= Abs(dy) && dy > 0.0
    ensures d == Up <==> Abs(dx) <= Abs(dy) && dy <= 0.0
  {
    if Abs(dx) > Abs(dy) then (if dx > 0.0 then Right else Left)
    else (if dy > 0.0 then Down else Up)
  }

  function Opposite(d: Direction): Direction {
    match d
    case Up => Down
    case Down => Up
    case Left => Right
    case Right => Left
  }

  /** A swipe traced backwards goes the opposite way, unless it did not
      move at all; a diagonal counts as vertical. */
  lemma SwipeDirectionReversed(dx: real, dy: real)
    ensures (dx != 0.0 || dy != 0.0) ==> SwipeDirection(-dx, -dy) == Opposite(SwipeDirection(dx, dy))
    ensures Abs(dx) == Abs(dy) ==> SwipeDirection(dx, dy) in {Up, Down}
  {
  }

  /** The callback for a swipe in direction `d`. */
  function SwipeCallback(d: Direction): (c: Callback)
    ensures c in {SwipedLeft, SwipedRight, SwipedUp, SwipedDown}
  {
    match d
    case Up => SwipedUp
    case Down => SwipedDown
    case Left => SwipedLeft
    case Right => SwipedRight
  }

  /** What a two-finger move reports and the scale it remembers. */
  datatype PinchOutcome = PinchOutcome(fired: Option<Callback>, lastScale: real)

  /** The pinch rule: a callback only once the scale moved by more than the
      threshold since the last report, outwards when it grew; the remembered
      scale moves only with a report. */
  function PinchStep(scale: real, lastScale: real, threshold: real): (r: PinchOutcome)
    ensures r.fired.Some? <==> Abs(scale - lastScale) > threshold
    ensures r.fired == Some(PinchedOut(scale)) <==> Abs(scale - lastScale) > threshold && scale > lastScale
    ensures r.fired == Some(PinchedIn(scale)) <==> Abs(scale - lastScale) > threshold && scale <= lastScale
    ensures r.lastScale == if r.fired.Some? then scale else lastScale
  {
    if Abs(scale - lastScale) > threshold then
      PinchOutcome(Some(if scale > lastScale then PinchedOut(scale) else PinchedIn(scale)), scale)
    else PinchOutcome(None, lastScale)
  }

  /** Fingers held still after a report do not report again. */
  lemma PinchReportsOnce(scale: real, lastScale: real, threshold: real)
    requires threshold >= 0.0
    ensures PinchStep(scale, PinchStep(scale, lastScale, threshold).lastScale, threshold).fired.None?
  {
  }

  datatype TimerKind = LongPressTimeout | TapTimeout | ResetTimeout

  /** A scheduled timeout and the handle `setTimeout` returned for it. */
  datatype Timer = Timer(id: nat, kind: TimerKind)

  function NotTimer(id: nat): Timer -> bool {
    (t: Timer) => t.id != id
  }

  /** `clearTimeout(id)`: the timer is no longer pending; a handle whose
      timer already fired changes nothing. */
  function Cancel(timers: seq<Timer>, id: nat): (r: seq<Timer>)
    ensures forall t :: t in r <==> t in timers && t.id != id
  {
    Filter(timers, NotTimer(id))
  }

  /** The recogniser's timer bookkeeping: handles are below the next
      handle and unique; at most one tap waits for its partner, exactly when
      a tap timeout is pending, and the tap handle names it; the long-press
      handle names a long-press timeout, if it names a pending one at all. */
  predicate TimersOk(timers: seq<Timer>, nextTimer: nat, tapCount: nat, tapTimer: Option<nat>,
                     longPressTimer: Option<nat>) {
    && tapCount <= 1
    && (forall t :: t in timers ==> t.id < nextTimer)
    && (forall t, u :: t in timers && u in timers && t.id == u.id ==> t == u)
    && (forall t :: t in timers && t.kind == TapTimeout ==> tapCount == 1 && tapTimer == Some(t.id))
    && (tapCount == 1 ==> tapTimer.Some? && Timer(tapTimer.value, TapTimeout) in timers)
    && (longPressTimer.Some? ==> forall t :: t in timers && t.id == longPressTimer.value ==> t.kind == LongPressTimeout)
  }

  /** Every pending long-press timeout is the one under the handle. */
  predicate LongPressOnly(timers: seq<Timer>, longPressTimer: Option<nat>) {
    forall t :: t in timers && t.kind == LongPressTimeout ==> longPressTimer == Some(t.id)
  }

  /** Arming a long-press timeout under the next handle keeps the
      bookkeeping; when none was pending, the new one is the only one. */
  lemma ArmLongPress(timers: seq<Timer>, nextTimer: nat, tapCount: nat, tapTimer: Option<nat>, longPressTimer: Option<nat>)
    requires TimersOk(timers, nextTimer, tapCount, tapTimer, longPressTimer)
    ensures TimersOk(timers + [Timer(nextTimer, LongPressTimeout)], nextTimer + 1, tapCount, tapTimer, Some(nextTimer))
    ensures (forall t :: t in timers ==> t.kind != LongPressTimeout) ==>
      LongPressOnly(timers + [Timer(nextTimer, LongPressTimeout)], Some(nextTimer))
  {
  }

  /** Arming the reset timeout keeps the bookkeeping and adds no long press. */
  lemma ArmReset(timers: seq<Timer>, nextTimer: nat, tapCount: nat, tapTimer: Option<nat>)
    requires TimersOk(timers, nextTimer, tapCount, tapTimer, None)
    ensures TimersOk(timers + [Timer(nextTimer, ResetTimeout)], nextTimer + 1, tapCount, tapTimer, None)
    ensures (forall t :: t in timers ==> t.kind != LongPressTimeout) ==>
      forall t :: t in timers + [Timer(nextTimer, ResetTimeout)] ==> t.kind != LongPressTimeout
  {
  }

  /** A first tap arms the tap timeout under the next handle. */
  lemma ArmTap(timers: seq<Timer>, nextTimer: nat, tapTimer: Option<nat>)
    requires TimersOk(timers, nextTimer, 0, tapTimer, None)
    ensures TimersOk(timers + [Timer(nextTimer, TapTimeout)], nextTimer + 1, 1, Some(nextTimer), None)
    ensures LongPressOnly(timers, None) ==> LongPressOnly(timers + [Timer(nextTimer, TapTimeout)], None)
  {
  }

  /** Clearing the long-press handle's timeout keeps the bookkeeping; when
      the handle named every pending long press, none is left. */
  lemma CancelLongPress(timers: seq<Timer>, nextTimer: nat, tapCount: nat, tapTimer: Option<nat>, id: nat)
    requires TimersOk(timers, nextTimer, tapCount, tapTimer, Some(id))
    ensures TimersOk(Cancel(timers, id), nextTimer, tapCount, tapTimer, None)
    ensures LongPressOnly(timers, Some(id)) ==> forall t :: t in Cancel(timers, id) ==> t.kind != LongPressTimeout
  {
    if tapCount == 1 {
      assert Timer(tapTimer.value, TapTimeout) in Cancel(timers, id);
    }
  }

  /** A pending timer leaves when it fires; a tap timeout takes the waiting
      tap with it. */
  lemma FireKeeps(timers: seq<Timer>, nextTimer: nat, tapCount: nat, tapTimer: Option<nat>,
                  longPressTimer: Option<nat>, t: Timer)
    requires TimersOk(timers, nextTimer, tapCount, tapTimer, longPressTimer) && t in timers
    ensures TimersOk(Cancel(timers, t.id), nextTimer, if t.kind == TapTimeout then 0 else tapCount, tapTimer, longPressTimer)
    ensures LongPressOnly(timers, longPressTimer) ==> LongPressOnly(Cancel(timers, t.id), longPressTimer)
  {
    if tapCount == 1 && t.kind != TapTimeout {
      assert Timer(tapTimer.value, TapTimeout) in Cancel(timers, t.id);
    }
  }

  /** Which branch touchend takes. */
  datatype Ending = SwipeEnd(d: Direction) | TapEnd | OtherEnd

  /** touchend's decision: a swipe reports its direction; otherwise a touch
      shorter than 200 ms that was not a long press is a tap. */
  function EndingOf(kind: Option<GestureType>, start: TouchPoint, last: TouchPoint, now: int): (e: Ending)
    ensures e.SwipeEnd? <==> kind == Some(Swipe)
    ensures e.SwipeEnd? ==> e.d == SwipeDirection(last.x - start.x, last.y - start.y)
    ensures e == TapEnd <==> kind != Some(Swipe) && kind != Some(LongPress) && now - start.time < 200
  {
    if kind == Some(Swipe) then SwipeEnd(SwipeDirection(last.x - start.x, last.y - start.y))
    else if kind != Some(LongPress) && now - start.time < TAP_MAX_DURATION then TapEnd
    else OtherEnd
  }

  /** The longest touch that still counts as a tap, exclusive, in ms. */
  const TAP_MAX_DURATION: int := 200
  /** A one-finger move longer than this cancels the long press. */
  const LONG_PRESS_SLOP: real := 10.0

  class GestureRecognizer {
    const config: GestureConfig
    var gesture: GestureState
    var touchStart: Option<TouchPoint>
    var lastTouch: Option<TouchPoint>
    var tapCount: nat
    var tapTimer: Option<nat>
    var longPressTimer: Option<nat>
    var initialDistance: Option<real>
    var lastScale: real
    /** Timeouts scheduled and not yet fired or cleared. */
    var timers: seq<Timer>
    /** The next handle `setTimeout` returns. */
    var nextTimer: nat

    /** The start and last touch are set and cleared together; a pinch's
        initial spread belongs to a touch in progress; the timers are kept
        as `TimersOk` says. */
    ghost predicate Valid()
      reads this
    {
      && (touchStart.Some? <==> lastTouch.Some?)
      && (initialDistance.Some? ==> touchStart.Some?)
      && TimersOk(timers, nextTimer, tapCount, tapTimer, longPressTimer)
    }

    /** Every pending long-press timeout is the one whose handle the
        recogniser holds, so clearing that handle silences the long press. */
    ghost predicate LongPressTracked()
      reads this
    {
      LongPressOnly(timers, longPressTimer)
    }

    constructor (overrides: ConfigOverrides)
      ensures Valid()
      ensures config == Merge(overrides) && gesture == IDLE
      ensures touchStart.None? && lastTouch.None? && initialDistance.None?
      ensures tapCount == 0 && tapTimer.None? && longPressTimer.None? && lastScale == 1.0
      ensures timers == [] && nextTimer == 0
      ensures LongPressTracked()
    {
      config := Merge(overrides);
      gesture := IDLE;
      touchStart, lastTouch := None, None;
      tapCount, tapTimer, longPressTimer := 0, None, None;
      initialDistance, lastScale := None, 1.0;
      timers, nextTimer := [], 0;
    }

    /** `handleTouchStart`. Two fingers start a pinch from their spread;
        any other count is a single touch that arms a long-press timeout
        (the handle of a previous one is overwritten, not cleared). */
    method TouchStart(touches: seq<Point>, spread: real, now: int) returns (fired: seq<Callback>)
      requires Valid() && |touches| >= 1 && spread >= 0.0
      modifies this
      ensures Valid()
      ensures touchStart == Some(TouchPoint(touches[0].x, touches[0].y, now))
      ensures lastTouch == touchStart
      ensures tapCount == old(tapCount) && tapTimer == old(tapTimer)
      ensures |touches| == 2 ==>
        && fired == [GestureStarted(Pinch)]
        && initialDistance == Some(spread) && lastScale == 1.0
        && gesture == old(gesture).(isGesturing := true, gestureType := Some(Pinch), center := Center(touches))
        && longPressTimer == old(longPressTimer)
        && timers == old(timers) && nextTimer == old(nextTimer)
      ensures |touches| != 2 ==>
        && fired == []
        && initialDistance == old(initialDistance) && lastScale == old(lastScale)
        && gesture == old(gesture).(isGesturing := true, center := touches[0])
        && longPressTimer == Some(old(nextTimer))
        && timers == old(timers) + [Timer(old(nextTimer), LongPressTimeout)]
        && nextTimer == old(nextTimer) + 1
    {
      var touch := touches[0];
      touchStart := Some(TouchPoint(touch.x, touch.y, now));
      lastTouch := touchStart;
      if |touches| == 2 {
        initialDistance := Some(spread);
        lastScale := 1.0;
        gesture := gesture.(isGesturing := true, gestureType := Some(Pinch), center := Center(touches));
        fired := [GestureStarted(Pinch)];
      } else {
        gesture := gesture.(isGesturing := true, center := touch);
        SetLongPressTimer();
        fired := [];
      }
    }

    /** touchstart's `setTimeout` for the long press: the new timeout's
        handle overwrites the long-press handle. */
    method SetLongPressTimer()
      requires Valid()
      modifies this
      ensures Valid()
      ensures longPressTimer == Some(old(nextTimer))
      ensures timers == old(timers) + [Timer(old(nextTimer), LongPressTimeout)] && nextTimer == old(nextTimer) + 1
      ensures (forall t :: t in old(timers) ==> t.kind != LongPressTimeout) ==> LongPressTracked()
      ensures gesture == old(gesture) && touchStart == old(touchStart) && lastTouch == old(lastTouch)
      ensures initialDistance == old(initialDistance) && lastScale == old(lastScale)
      ensures tapCount == old(tapCount) && tapTimer == old(tapTimer)
    {
      ArmLongPress(timers, nextTimer, tapCount, tapTimer, longPressTimer);
      longPressTimer := Some(nextTimer);
      timers := timers + [Timer(nextTimer, LongPressTimeout)];
      nextTimer := nextTimer + 1;
    }

    /** touchstart as it was evidently meant: a single touch first clears
        the long-press timeout it replaces, so one handle always names every
        pending long press. Otherwise the same as `TouchStart`. */
    method TouchStartClearing(touches: seq<Point>, spread: real, now: int) returns (fired: seq<Callback>)
      requires Valid() && |touches| >= 1 && spread >= 0.0
      modifies this
      ensures Valid()
      ensures old(LongPressTracked()) ==> LongPressTracked()
      ensures touchStart == Some(TouchPoint(touches[0].x, touches[0].y, now))
      ensures lastTouch == touchStart
      ensures tapCount == old(tapCount) && tapTimer == old(tapTimer)
      ensures |touches| == 2 ==>
        && fired == [GestureStarted(Pinch)]
        && initialDistance == Some(spread) && lastScale == 1.0
        && gesture == old(gesture).(isGesturing := true, gestureType := Some(Pinch), center := Center(touches))
        && longPressTimer == old(longPressTimer)
        && timers == old(timers) && nextTimer == old(nextTimer)
      ensures |touches| != 2 ==>
        && fired == []
        && initialDistance == old(initialDistance) && lastScale == old(lastScale)
        && gesture == old(gesture).(isGesturing := true, center := touches[0])
        && longPressTimer == Some(old(nextTimer))
        && timers == (if old(longPressTimer).Some? then Cancel(old(timers), old(longPressTimer).value) else old(timers))
                     + [Timer(old(nextTimer), LongPressTimeout)]
        && nextTimer == old(nextTimer) + 1
    {
      if |touches| != 2 {
        ClearLongPress();
      }
      fired := TouchStart(touches, spread, now);
    }

    /** `handleTouchMove`. With two fingers and a non-zero initial spread it
        rescales the pinch; otherwise it tracks the first finger: the move
        is a swipe beyond the swipe threshold and a pan below it, a move of
        more than 10 pixels cancels the long press, and the pan callback
        gets the step since the last touch. Without a touch in progress
        nothing happens. */
    method TouchMove(touches: seq<Point>, spread: real, now: int) returns (fired: seq<Callback>)
      requires Valid() && |touches| >= 1 && spread >= 0.0
      modifies this
      ensures Valid()
      ensures old(LongPressTracked()) ==> LongPressTracked()
      ensures touchStart == old(touchStart) && initialDistance == old(initialDistance)
      ensures tapCount == old(tapCount) && tapTimer == old(tapTimer) && nextTimer == old(nextTimer)
      ensures old(touchStart).None? ==>
        fired == [] && gesture == old(gesture) && lastTouch == old(lastTouch) && lastScale == old(lastScale)
        && longPressTimer == old(longPressTimer) && timers == old(timers)
      ensures old(touchStart).Some? && |touches| == 2 && old(initialDistance).Some? && old(initialDistance).value != 0.0 ==>
        (var scale := spread / old(initialDistance).value;
         var step := PinchStep(scale, old(lastScale), config.pinchThreshold);
         && gesture == old(gesture).(gestureType := Some(Pinch), scale := scale, center := Center(touches))
         && fired == (if step.fired.Some? then [step.fired.value] else [])
         && lastScale == step.lastScale
         && lastTouch == old(lastTouch) && longPressTimer == old(longPressTimer) && timers == old(timers))
      ensures old(touchStart).Some? && !(|touches| == 2 && old(initialDistance).Some? && old(initialDistance).value != 0.0) ==>
        (var start, last, touch := old(touchStart).value, old(lastTouch).value, touches[0];
         var dx, dy := touch.x - start.x, touch.y - start.y;
         var distSq := dx * dx + dy * dy;
         && gesture == old(gesture).(gestureType := Some(if Exceeds(distSq, config.swipeThreshold) then Swipe else Pan),
                                     distanceSq := distSq, center := touch)
         && fired == [Panned(touch.x - last.x, touch.y - last.y)]
         && lastTouch == Some(TouchPoint(touch.x, touch.y, now))
         && lastScale == old(lastScale)
         && (if Exceeds(distSq, LONG_PRESS_SLOP) && old(longPressTimer).Some?
             then longPressTimer.None? && timers == Cancel(old(timers), old(longPressTimer).value)
             else longPressTimer == old(longPressTimer) && timers == old(timers)))
    {
      if touchStart.None? || lastTouch.None? {
        return [];
      }
      if |touches| == 2 && initialDistance.Some? && initialDistance.value != 0.0 {
        fired := MovePinch(touches, spread);
      } else {
        fired := MovePan(touches[0], now);
      }
    }

    /** touchmove with two fingers and a known initial spread: the scale is
        the spread over the initial one, and the pinch callback follows the
        pinch rule. */
    method MovePinch(touches: seq<Point>, spread: real) returns (fired: seq<Callback>)
      requires Valid() && |touches| >= 1 && initialDistance.Some? && initialDistance.value != 0.0
      modifies this
      ensures Valid()
      ensures var scale := spread / old(initialDistance).value;
        var step := PinchStep(scale, old(lastScale), config.pinchThreshold);
        && gesture == old(gesture).(gestureType := Some(Pinch), scale := scale, center := Center(touches))
        && fired == (if step.fired.Some? then [step.fired.value] else [])
        && lastScale == step.lastScale
      ensures touchStart == old(touchStart) && lastTouch == old(lastTouch) && initialDistance == old(initialDistance)
      ensures tapCount == old(tapCount) && tapTimer == old(tapTimer) && longPressTimer == old(longPressTimer)
      ensures timers == old(timers) && nextTimer == old(nextTimer)
    {
      var scale := spread / initialDistance.value;
      var step := PinchStep(scale, lastScale, config.pinchThreshold);
      gesture := gesture.(gestureType := Some(Pinch), scale := scale, center := Center(touches));
      fired := if step.fired.Some? then [step.fired.value] else [];
      lastScale := step.lastScale;
    }

    /** touchmove tracking one finger: a swipe beyond the swipe threshold
        and a pan below it; beyond 10 pixels the long press is cancelled;
        the pan callback gets the step since the last touch. */
    method MovePan(touch: Point, now: int) returns (fired: seq<Callback>)
      requires Valid() && touchStart.Some?
      modifies this
      ensures Valid()
      ensures old(LongPressTracked()) ==> LongPressTracked()
      ensures touchStart == old(touchStart) && initialDistance == old(initialDistance) && lastScale == old(lastScale)
      ensures tapCount == old(tapCount) && tapTimer == old(tapTimer) && nextTimer == old(nextTimer)
      ensures var start, last := old(touchStart).value, old(lastTouch).value;
        var dx, dy := touch.x - start.x, touch.y - start.y;
        var distSq := dx * dx + dy * dy;
        && gesture == old(gesture).(gestureType := Some(if Exceeds(distSq, config.swipeThreshold) then Swipe else Pan),
                                    distanceSq := distSq, center := touch)
        && fired == [Panned(touch.x - last.x, touch.y - last.y)]
        && lastTouch == Some(TouchPoint(touch.x, touch.y, now))
        && (if Exceeds(distSq, LONG_PRESS_SLOP) && old(longPressTimer).Some?
            then longPressTimer.None? && timers == Cancel(old(timers), old(longPressTimer).value)
            else longPressTimer == old(longPressTimer) && timers == old(timers))
    {
      var start, last := touchStart.value, lastTouch.value;
      var dx, dy := touch.x - start.x, touch.y - start.y;
      var distSq := dx * dx + dy * dy;
      if Exceeds(distSq, LONG_PRESS_SLOP) {
        ClearLongPress();
      }
      gesture := gesture.(gestureType := Some(if Exceeds(distSq, config.swipeThreshold) then Swipe else Pan),
                          distanceSq := distSq, center := touch);
      fired := [Panned(touch.x - last.x, touch.y - last.y)];
      lastTouch := Some(TouchPoint(touch.x, touch.y, now));
    }

    /** `handleTouchEnd`. It clears the long press, reports a swipe's
        direction or counts a tap (the second tap within the double-tap
        delay is a double tap and starts the count again), schedules the
        reset of the gesture state and forgets the touch. Without a touch in
        progress nothing happens. */
    method TouchEnd(now: int) returns (fired: seq<Callback>)
      requires Valid()
      modifies this
      ensures Valid()
      ensures old(LongPressTracked()) && old(touchStart).Some? ==> forall t :: t in timers ==> t.kind != LongPressTimeout
      ensures lastScale == old(lastScale)
      ensures old(touchStart).None? ==>
        fired == [] && gesture == old(gesture) && lastTouch == old(lastTouch) && initialDistance == old(initialDistance)
        && tapCount == old(tapCount) && tapTimer == old(tapTimer) && longPressTimer == old(longPressTimer)
        && timers == old(timers) && nextTimer == old(nextTimer)
      ensures old(touchStart).Some? ==>
        (var start := old(touchStart).value;
         var ending := EndingOf(old(gesture).gestureType, start, old(lastTouch).value, now);
         var afterLongPress := if old(longPressTimer).Some? then Cancel(old(timers), old(longPressTimer).value) else old(timers);
         && touchStart.None? && lastTouch.None? && initialDistance.None? && longPressTimer.None?
         && (ending.SwipeEnd? ==>
               && fired == [SwipeCallback(ending.d)] && gesture == old(gesture).(direction := Some(ending.d))
               && tapCount == old(tapCount) && tapTimer == old(tapTimer)
               && timers == afterLongPress + [Timer(old(nextTimer), ResetTimeout)] && nextTimer == old(nextTimer) + 1)
         && (ending == TapEnd && old(tapCount) == 0 ==>
               && fired == [] && gesture == old(gesture) && tapCount == 1 && tapTimer == Some(old(nextTimer))
               && timers == afterLongPress + [Timer(old(nextTimer), TapTimeout), Timer(old(nextTimer) + 1, ResetTimeout)]
               && nextTimer == old(nextTimer) + 2)
         && (ending == TapEnd && old(tapCount) == 1 ==>
               && fired == [DoubleTapped] && gesture == old(gesture).(gestureType := Some(DoubleTap))
               && tapCount == 0 && tapTimer.None?
               && timers == Cancel(afterLongPress, old(tapTimer).value) + [Timer(old(nextTimer), ResetTimeout)]
               && nextTimer == old(nextTimer) + 1)
         && (ending == OtherEnd ==>
               && fired == [] && gesture == old(gesture) && tapCount == old(tapCount) && tapTimer == old(tapTimer)
               && timers == afterLongPress + [Timer(old(nextTimer), ResetTimeout)] && nextTimer == old(nextTimer) + 1))
    {
      if touchStart.None? {
        return [];
      }
      var start, last := touchStart.value, lastTouch.value;
      ClearLongPress();
      ghost var cleared := timers;
      fired := [];
      var ending := EndingOf(gesture.gestureType, start, last, now);
      match ending {
        case SwipeEnd(d) =>
          fired := [SwipeCallback(d)];
          gesture := gesture.(direction := Some(d));
        case TapEnd =>
          fired := CountTap();
        case OtherEnd =>
      }
      ScheduleReset();
      assert cleared + [Timer(old(nextTimer), TapTimeout)] + [Timer(old(nextTimer) + 1, ResetTimeout)]
             == cleared + [Timer(old(nextTimer), TapTimeout), Timer(old(nextTimer) + 1, ResetTimeout)];
    }

    /** touchend's last step: the gesture state is reset 100 ms later and
        the touch is forgotten. */
    method ScheduleReset()
      requires Valid() && longPressTimer.None?
      modifies this
      ensures Valid() && longPressTimer.None?
      ensures old(LongPressTracked()) ==> forall t :: t in timers ==> t.kind != LongPressTimeout
      ensures timers == old(timers) + [Timer(old(nextTimer), ResetTimeout)] && nextTimer == old(nextTimer) + 1
      ensures touchStart.None? && lastTouch.None? && initialDistance.None?
      ensures gesture == old(gesture) && lastScale == old(lastScale)
      ensures tapCount == old(tapCount) && tapTimer == old(tapTimer)
    {
      ArmReset(timers, nextTimer, tapCount, tapTimer);
      timers := timers + [Timer(nextTimer, ResetTimeout)];
      nextTimer := nextTimer + 1;
      touchStart, lastTouch, initialDistance := None, None, None;
    }

    /** touchend's first step: the long-press timeout, if any, is cleared. */
    method ClearLongPress()
      requires Valid()
      modifies this
      ensures Valid() && longPressTimer.None?
      ensures old(LongPressTracked()) ==> forall t :: t in timers ==> t.kind != LongPressTimeout
      ensures timers == if old(longPressTimer).Some? then Cancel(old(timers), old(longPressTimer).value) else old(timers)
      ensures gesture == old(gesture) && touchStart == old(touchStart) && lastTouch == old(lastTouch)
      ensures initialDistance == old(initialDistance) && lastScale == old(lastScale)
      ensures tapCount == old(tapCount) && tapTimer == old(tapTimer) && nextTimer == old(nextTimer)
    {
      if longPressTimer.Some? {
        CancelLongPress(timers, nextTimer, tapCount, tapTimer, longPressTimer.value);
        timers := Cancel(timers, longPressTimer.value);
        longPressTimer := None;
      }
    }

    /** touchend on a tap: the first tap waits for a partner for the
        double-tap delay; the second is a double tap and starts over. */
    method CountTap() returns (fired: seq<Callback>)
      requires Valid() && longPressTimer.None?
      modifies this
      ensures Valid() && longPressTimer.None?
      ensures old(LongPressTracked()) ==> LongPressTracked()
      ensures touchStart == old(touchStart) && lastTouch == old(lastTouch)
      ensures initialDistance == old(initialDistance) && lastScale == old(lastScale)
      ensures old(tapCount) == 0 ==>
        && fired == [] && gesture == old(gesture) && tapCount == 1 && tapTimer == Some(old(nextTimer))
        && timers == old(timers) + [Timer(old(nextTimer), TapTimeout)] && nextTimer == old(nextTimer) + 1
      ensures old(tapCount) == 1 ==>
        && fired == [DoubleTapped] && gesture == old(gesture).(gestureType := Some(DoubleTap))
        && tapCount == 0 && tapTimer.None?
        && timers == Cancel(old(timers), old(tapTimer).value) && nextTimer == old(nextTimer)
    {
      if tapCount == 0 {
        ArmTap(timers, nextTimer, tapTimer);
        tapCount := 1;
        tapTimer := Some(nextTimer);
        timers := timers + [Timer(nextTimer, TapTimeout)];
        nextTimer := nextTimer + 1;
        fired := [];
      } else {
        FireKeeps(timers, nextTimer, tapCount, tapTimer, None, Timer(tapTimer.value, TapTimeout));
        timers := Cancel(timers, tapTimer.value);
        tapTimer := None;
        tapCount := 0;
        gesture := gesture.(gestureType := Some(DoubleTap));
        fired := [DoubleTapped];
      }
    }

    /** A pending timeout fires: a long press is reported, an unanswered tap
        is forgotten, or the gesture state returns to idle. */
    method FireTimer(t: Timer) returns (fired: seq<Callback>)
      requires Valid() && t in timers
      modifies this
      ensures Valid()
      ensures old(LongPressTracked()) ==> LongPressTracked()
      ensures timers == Cancel(old(timers), t.id) && t !in timers
      ensures touchStart == old(touchStart) && lastTouch == old(lastTouch) && initialDistance == old(initialDistance)
      ensures tapTimer == old(tapTimer) && longPressTimer == old(longPressTimer)
      ensures lastScale == old(lastScale) && nextTimer == old(nextTimer)
      ensures t.kind == LongPressTimeout ==>
        fired == [LongPressed] && gesture == old(gesture).(gestureType := Some(LongPress)) && tapCount == old(tapCount)
      ensures t.kind == TapTimeout ==> fired == [] && gesture == old(gesture) && tapCount == 0
      ensures t.kind == ResetTimeout ==> fired == [GestureEnded] && gesture == IDLE && tapCount == old(tapCount)
    {
      FireKeeps(timers, nextTimer, tapCount, tapTimer, longPressTimer, t);
      timers := Cancel(timers, t.id);
      match t.kind {
        case LongPressTimeout =>
          gesture := gesture.(gestureType := Some(LongPress));
          fired := [LongPressed];
        case TapTimeout =>
          tapCount := 0;
          fired := [];
        case ResetTimeout =>
          gesture := IDLE;
          fired := [GestureEnded];
      }
    }
  }

  /** As written, a touch that starts while another is held overwrites the
      long-press handle: after one finger, then three, then the end of the
      touch, the first long-press timeout is still pending and fires. */
  method StrayLongPress() returns (fired: seq<Callback>)
    ensures fired == [LongPressed]
  {
    var g := new GestureRecognizer(ConfigOverrides(None, None, None, None, None));
    var p := Point(0.0, 0.0);
    var ignored := g.TouchStart([p], 0.0, 0);
    ignored := g.TouchStart([p, p, p], 0.0, 10);
    ignored := g.TouchEnd(20);
    assert Timer(0, LongPressTimeout) in g.timers;
    fired := g.FireTimer(Timer(0, LongPressTimeout));
  }

  /** With the clearing touchstart the same touches leave no long press
      pending once the touch ends. */
  method NoStrayLongPress() returns (pending: bool)
    ensures !pending
  {
    var g := new GestureRecognizer(ConfigOverrides(None, None, None, None, None));
    var p := Point(0.0, 0.0);
    var ignored := g.TouchStartClearing([p], 0.0, 0);
    ignored := g.TouchStartClearing([p, p, p], 0.0, 10);
    assert g.LongPressTracked() && g.touchStart.Some?;
    ignored := g.TouchEnd(20);
    pending := exists i :: 0 <= i < |g.timers| && g.timers[i].kind == LongPressTimeout;
  }
}
