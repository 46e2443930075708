/** The smooth-scroll engine of js/custom-scroll.js.

    The browser keeps scrolling natively over a body whose height equals the
    content's; the engine records the clamped native offset as `targetScroll`
    and eases a rendered offset `currentScroll` toward it, one animation
    frame at a time.  Frame callbacks are explicit method calls here, and the
    DOM geometry (content height, viewport height, scrollbar track height) is
    passed in. */
module CustomScroll {
  import opened Common

  /** Fraction of the remaining distance covered by one frame. */
  const EASE: real := 0.16
  /** Gap below which a frame snaps, and at or below which the loop stops. */
  const STOP_THRESHOLD: real := 0.3
  /** The engine is installed only when the window is wider than this. */
  const DESKTOP_MIN_WIDTH: int := 768
  /** Smallest height of the scrollbar thumb, in pixels. */
  const MIN_THUMB: real := 50.0

  predicate Enabled(innerWidth: int) { innerWidth > DESKTOP_MIN_WIDTH }

  /** Layout read from the DOM when an operation runs.  The scroll container
      has `min-height: 100vh`, so its scroll height is positive. */
  datatype Geometry = Geometry(contentHeight: real, viewportHeight: real, trackHeight: real)
  {
    predicate Valid() {
      contentHeight > 0.0 && viewportHeight >= 0.0 && trackHeight >= 0.0
    }

    /** `scrollHeight - innerHeight`; negative when the content is shorter
        than the viewport. */
    function MaxScroll(): real { contentHeight - viewportHeight }
  }

  /** The clamp of `onScroll` and `scrollTo`: `max(0, min(maxScroll, y))`. */
  function ClampTarget(y: real, g: Geometry): (r: real)
    ensures 0.0 <= r <= Max(0.0, g.MaxScroll())
    ensures 0.0 <= y <= g.MaxScroll() ==> r == y
    ensures y <= 0.0 ==> r == 0.0
    ensures y >= g.MaxScroll() ==> r == Max(0.0, g.MaxScroll())
    ensures g.MaxScroll() <= 0.0 ==> r == 0.0
  {
    Max(0.0, Min(g.MaxScroll(), y))
  }

  /** One easing frame: move `ease` of the way to the target, or snap to it
      when the gap before the move is below the threshold. */
  function EaseStep(current: real, target: real, ease: real): real {
    var diff := target - current;
    var moved := current + diff * ease;
    if Abs(diff) < STOP_THRESHOLD then target else moved
  }

  /** The rescheduling test that ends each frame. */
  predicate KeepsStepping(current: real, target: real) {
    Abs(target - current) > STOP_THRESHOLD
  }

  lemma EaseStepProperties(c: real, t: real, e: real)
    requires 0.0 < e <= 1.0
    ensures Between(c, t, EaseStep(c, t, e))
    ensures Abs(t - EaseStep(c, t, e)) <= Abs(t - c)
    ensures Abs(t - c) < STOP_THRESHOLD ==> EaseStep(c, t, e) == t
    ensures Abs(t - c) >= STOP_THRESHOLD ==> Abs(t - EaseStep(c, t, e)) == (1.0 - e) * Abs(t - c)
    ensures Abs(t - c) >= STOP_THRESHOLD ==> (1.0 - e) * STOP_THRESHOLD <= Abs(t - EaseStep(c, t, e))
  {
    var d := t - c;
    if Abs(d) >= STOP_THRESHOLD {
      var g := Abs(d);
      PartialMove(g, e);
      if d >= 0.0 {
        assert EaseStep(c, t, e) == c + g * e;
      } else {
        assert d * e == -(g * e);
        assert EaseStep(c, t, e) == c - g * e;
      }
    }
  }

  /** Moving a fraction `e` of a non-negative gap `g`. */
  lemma PartialMove(g: real, e: real)
    requires 0.0 < e <= 1.0 && g >= STOP_THRESHOLD
    ensures 0.0 <= g * e <= g
    ensures g - g * e == (1.0 - e) * g
    ensures (1.0 - e) * STOP_THRESHOLD <= (1.0 - e) * g
  {
    var a := 1.0 - e;
    assert a >= 0.0;
    assert a * (g - STOP_THRESHOLD) >= 0.0;
  }

  lemma DivPositive(x: real, y: real)
    requires x > 0.0 && y > 0.0
    ensures x / y > 0.0
  {
    assert (x / y) * y == x;
  }

  /** A variant for the frame loop: the number of whole `ease * threshold`
      lengths in the gap. */
  function Measure(gap: real, ease: real): nat
    requires 0.0 < ease
  {
    if gap <= STOP_THRESHOLD then 0
    else
      DivPositive(gap, ease * STOP_THRESHOLD);
      (gap / (ease * STOP_THRESHOLD)).Floor
  }

  /** A non-snapping frame that is followed by another one removes at least
      one unit of the variant. */
  lemma MeasureDrops(c: real, t: real, e: real)
    requires 0.0 < e <= 1.0
    requires KeepsStepping(EaseStep(c, t, e), t)
    ensures Measure(Abs(t - EaseStep(c, t, e)), e) < Measure(Abs(t - c), e)
  {
    EaseStepProperties(c, t, e);
    var g := Abs(t - c);
    var g' := Abs(t - EaseStep(c, t, e));
    assert g >= STOP_THRESHOLD;
    assert g' == (1.0 - e) * g;
    var k := e * STOP_THRESHOLD;
    assert k > 0.0;
    var x := g / k;
    var y := g' / k;
    assert y == x - g / STOP_THRESHOLD by {
      assert g' / k == g / k - (e * g) / k;
      assert (e * g) / (e * STOP_THRESHOLD) == g / STOP_THRESHOLD;
    }
    assert g / STOP_THRESHOLD >= 1.0;
    assert y.Floor as real <= y < x - 1.0;
    assert x < x.Floor as real + 1.0;
  }

  /** Where an uninterrupted frame loop started at `current` comes to rest: at
      least one frame runs, and frames continue while the gap exceeds the
      threshold. */
  function Settle(current: real, target: real, ease: real): (r: real)
    requires 0.0 < ease <= 1.0
    ensures Abs(target - r) <= STOP_THRESHOLD
    ensures Between(current, target, r)
    ensures r == target || (1.0 - ease) * STOP_THRESHOLD <= Abs(target - r)
    decreases Measure(Abs(target - current), ease)
  {
    EaseStepProperties(current, target, ease);
    var next := EaseStep(current, target, ease);
    if KeepsStepping(next, target) then
      MeasureDrops(current, target, ease);
      Settle(next, target, ease)
    else
      next
  }

  /** The rest position is not always the target: a gap of 0.35 is not
      snapped, the frame leaves a gap of 0.294, and no further frame runs. */
  lemma RestIsNotExact()
    ensures Settle(0.0, 0.35, EASE) == 0.056
    ensures Settle(0.0, 0.35, EASE) != 0.35
  {
    assert EaseStep(0.0, 0.35, EASE) == 0.056;
    assert !KeepsStepping(0.056, 0.35);
  }

  /** A gap already below the threshold is closed exactly by one frame. */
  lemma SmallGapSnaps(current: real, target: real, ease: real)
    requires 0.0 < ease <= 1.0
    requires Abs(target - current) < STOP_THRESHOLD
    ensures Settle(current, target, ease) == target
  {
    EaseStepProperties(current, target, ease);
  }

  datatype Thumb = Thumb(height: real, top: real)

  /** The thumb's position as a fraction of its travel; a zero scroll range is
      divided as 1 (the `|| 1` of the source). */
  function ScrollProgress(current: real, g: Geometry): (p: real)
    ensures 0.0 <= p <= 1.0
    ensures g.MaxScroll() > 0.0 && 0.0 <= current <= g.MaxScroll() ==> p * g.MaxScroll() == current
    ensures g.MaxScroll() > 0.0 && current <= 0.0 ==> p == 0.0
    ensures g.MaxScroll() > 0.0 && current >= g.MaxScroll() ==> p == 1.0
    ensures g.MaxScroll() == 0.0 ==> p == Max(0.0, Min(1.0, current))
  {
    var scrollHeight := g.MaxScroll();
    var divisor := if scrollHeight == 0.0 then 1.0 else scrollHeight;
    QuotientFacts(current, divisor);
    Max(0.0, Min(1.0, current / divisor))
  }

  lemma QuotientFacts(x: real, d: real)
    ensures d > 0.0 && 0.0 <= x <= d ==> 0.0 <= x / d <= 1.0 && (x / d) * d == x
    ensures d > 0.0 && x < 0.0 ==> x / d < 0.0
    ensures d > 0.0 && x > d ==> x / d > 1.0
  {
    if d <= 0.0 {
      return;
    }
    if 0.0 < x {
      DivPositive(x, d);
    }
    if x < 0.0 {
      DivPositive(-x, d);
    }
    if x > d {
      var q := x / d;
      assert q * d == x;
      if q <= 1.0 {
        ScaleAtMostOne(q, d);
      }
      assert q > 1.0;
    }
    assert (x / d) * d == x;
  }

  /** Thumb height and offset, as `updateScrollbar` writes them. */
  function Scrollbar(current: real, g: Geometry): (th: Thumb)
    requires g.Valid()
    ensures th.height >= MIN_THUMB
    ensures g.trackHeight >= th.height ==> 0.0 <= th.top <= g.trackHeight - th.height
    ensures g.trackHeight > th.height ==> th.top / (g.trackHeight - th.height) == ScrollProgress(current, g)
  {
    var height := Max(MIN_THUMB, g.trackHeight * (g.viewportHeight / g.contentHeight));
    var p := ScrollProgress(current, g);
    var travel := g.trackHeight - height;
    ScaledFraction(p, travel);
    Thumb(height, p * travel)
  }

  lemma ScaleAtMostOne(q: real, d: real)
    requires q <= 1.0 && d > 0.0
    ensures q * d <= d
  {
    assert (1.0 - q) * d >= 0.0;
  }

  lemma ScaledFraction(p: real, travel: real)
    requires 0.0 <= p <= 1.0
    ensures travel >= 0.0 ==> 0.0 <= p * travel <= travel
    ensures travel > 0.0 ==> (p * travel) / travel == p
  {
  }

  /** What one frame writes: the content transform, the thumb, and the value
      broadcast in the `customscroll` event. */
  datatype Frame = Frame(translateY: real, thumb: Thumb, scroll: real)

  function Render(current: real, g: Geometry): Frame
    requires g.Valid()
  {
    Frame(-current, Scrollbar(current, g), current)
  }

  /** Pointer travel mapped onto the scroll range; a zero draggable length is
      divided as 1. */
  function DragDelta(delta: real, g: Geometry, thumbHeight: real): real {
    var draggable := g.trackHeight - thumbHeight;
    (delta / (if draggable == 0.0 then 1.0 else draggable)) * g.MaxScroll()
  }

  /** The native offset requested while dragging; the clamp is the one of
      `onScroll`. */
  function DragTarget(startScroll: real, delta: real, g: Geometry, thumbHeight: real): (r: real)
    ensures 0.0 <= r <= Max(0.0, g.MaxScroll())
    ensures r == ClampTarget(startScroll + DragDelta(delta, g, thumbHeight), g)
  {
    Max(0.0, Min(g.MaxScroll(), startScroll + DragDelta(delta, g, thumbHeight)))
  }

  /** Dragging the thumb over its whole draggable length covers the whole
      scroll range. */
  lemma DragWholeTrack(g: Geometry, thumbHeight: real)
    requires g.trackHeight - thumbHeight != 0.0
    requires g.MaxScroll() >= 0.0
    ensures DragTarget(0.0, g.trackHeight - thumbHeight, g, thumbHeight) == g.MaxScroll()
    ensures DragTarget(g.MaxScroll(), -(g.trackHeight - thumbHeight), g, thumbHeight) == 0.0
  {
    var d := g.trackHeight - thumbHeight;
    assert d / d == 1.0;
    assert (-d) / d == -1.0;
  }

  function EaseOption(ease: Option<real>): real {
    match ease
    case None => EASE
    case Some(e) => e
  }

  /** The engine's state.  `mainFrames` counts the `smoothScrollStep`
      callbacks waiting for a frame; `scrollToLoops` holds, for each
      `scrollTo` loop still running, the ease it steps with (each such loop
      has exactly one callback waiting). */
  class ScrollEngine {
    var targetScroll: real
    var currentScroll: real
    var isScrolling: bool
    var mainFrames: nat
    var scrollToLoops: multiset<real>
    var isDragging: bool
    var dragStartY: real
    var dragStartScroll: real
    var selectionSuppressed: bool

    /** The `isScrolling` guard admits a single self-rescheduling loop. */
    ghost predicate Valid()
      reads this`mainFrames, this`isScrolling
    {
      mainFrames == (if isScrolling then 1 else 0)
    }

    /** The script installs the engine only above the mobile width; both
        offsets start at the native `scrollY`. */
    constructor (scrollY: real)
      ensures Valid()
      ensures targetScroll == scrollY && currentScroll == scrollY
      ensures !isScrolling && scrollToLoops == multiset{}
      ensures !isDragging && dragStartY == 0.0 && dragStartScroll == 0.0 && !selectionSuppressed
    {
      targetScroll := scrollY;
      currentScroll := scrollY;
      isScrolling := false;
      mainFrames := 0;
      scrollToLoops := multiset{};
      isDragging := false;
      dragStartY := 0.0;
      dragStartScroll := 0.0;
      selectionSuppressed := false;
    }

    /** The public `getScroll`: the eased offset, never the native one. */
    function GetScroll(): (r: real)
      reads this
      ensures r == currentScroll
    {
      currentScroll
    }

    /** The native `scroll` listener. */
    method OnScroll(scrollY: real, g: Geometry) returns (scheduled: bool)
      requires Valid()
      modifies this`targetScroll, this`isScrolling, this`mainFrames
      ensures Valid()
      ensures targetScroll == ClampTarget(scrollY, g)
      ensures g.MaxScroll() <= 0.0 ==> targetScroll == 0.0
      ensures scheduled == !old(isScrolling)
      ensures isScrolling && mainFrames == 1
    {
      targetScroll := Max(0.0, Min(g.MaxScroll(), scrollY));
      scheduled := !isScrolling;
      if !isScrolling {
        mainFrames := mainFrames + 1;
        isScrolling := true;
      }
    }

    /** One `smoothScrollStep` frame. */
    method Step(g: Geometry) returns (frame: Frame, again: bool)
      requires Valid() && g.Valid()
      requires mainFrames > 0
      modifies this`currentScroll, this`isScrolling, this`mainFrames
      ensures Valid()
      ensures currentScroll == EaseStep(old(currentScroll), targetScroll, EASE)
      ensures Between(old(currentScroll), targetScroll, currentScroll)
      ensures Abs(targetScroll - currentScroll) <= Abs(targetScroll - old(currentScroll))
      ensures again == KeepsStepping(currentScroll, targetScroll)
      ensures isScrolling == again
      ensures frame == Render(currentScroll, g)
    {
      EaseStepProperties(currentScroll, targetScroll, EASE);
      mainFrames := mainFrames - 1;
      var diff := targetScroll - currentScroll;
      currentScroll := currentScroll + diff * EASE;
      if Abs(diff) < STOP_THRESHOLD {
        currentScroll := targetScroll;
      }
      frame := Frame(-currentScroll, Scrollbar(currentScroll, g), currentScroll);
      again := Abs(targetScroll - currentScroll) > STOP_THRESHOLD;
      if again {
        mainFrames := mainFrames + 1;
      } else {
        isScrolling := false;
      }
    }

    /** Runs queued `smoothScrollStep` frames, with no event in between,
        until the loop stops rescheduling itself. */
    method RunUntilRest(g: Geometry) returns (frames: nat)
      requires Valid() && g.Valid()
      requires isScrolling
      modifies this`currentScroll, this`isScrolling, this`mainFrames
      ensures Valid() && !isScrolling
      ensures currentScroll == Settle(old(currentScroll), targetScroll, EASE)
      ensures Abs(targetScroll - currentScroll) <= STOP_THRESHOLD
      ensures Between(old(currentScroll), targetScroll, currentScroll)
      ensures frames >= 1
    {
      ghost var start := currentScroll;
      var again := true;
      frames := 0;
      while again
        invariant Valid() && isScrolling == again
        invariant again ==> Settle(start, targetScroll, EASE) == Settle(currentScroll, targetScroll, EASE)
        invariant !again ==> Settle(start, targetScroll, EASE) == currentScroll && frames >= 1
        decreases if again then Measure(Abs(targetScroll - currentScroll), EASE) + 1 else 0
      {
        ghost var before := currentScroll;
        if KeepsStepping(EaseStep(before, targetScroll, EASE), targetScroll) {
          MeasureDrops(before, targetScroll, EASE);
        }
        var frame;
        frame, again := Step(g);
        frames := frames + 1;
      }
    }

    /** The public `scrollTo(y, {ease, duration})`: clamps `y` as `onScroll`
        does, returns the native position it requests, and starts one more
        independent frame loop with the given ease.  `duration` is accepted
        and ignored. */
    method ScrollTo(y: real, ease: Option<real>, duration: Option<real>, g: Geometry) returns (nativeY: real)
      modifies this`targetScroll, this`scrollToLoops
      ensures targetScroll == ClampTarget(y, g)
      ensures nativeY == targetScroll
      ensures scrollToLoops == old(scrollToLoops) + multiset{EaseOption(ease)}
    {
      var e := EaseOption(ease);
      targetScroll := Max(0.0, Min(g.MaxScroll(), y));
      nativeY := targetScroll;
      scrollToLoops := scrollToLoops + multiset{e};
    }

    /** One frame of a `scrollTo` loop stepping with `ease`; it neither reads
        nor writes `isScrolling`. */
    method ScrollToStep(ease: real, g: Geometry) returns (frame: Frame, again: bool)
      requires g.Valid()
      requires ease in scrollToLoops
      modifies this`currentScroll, this`scrollToLoops
      ensures currentScroll == EaseStep(old(currentScroll), targetScroll, ease)
      ensures 0.0 < ease <= 1.0 ==> Between(old(currentScroll), targetScroll, currentScroll)
      ensures again == KeepsStepping(currentScroll, targetScroll)
      ensures scrollToLoops == if again then old(scrollToLoops) else old(scrollToLoops) - multiset{ease}
      ensures frame == Render(currentScroll, g)
    {
      ghost var before := currentScroll;
      if 0.0 < ease <= 1.0 {
        EaseStepProperties(currentScroll, targetScroll, ease);
      }
      var diff := targetScroll - currentScroll;
      currentScroll := currentScroll + diff * ease;
      if Abs(diff) < STOP_THRESHOLD {
        currentScroll := targetScroll;
      }
      assert currentScroll == EaseStep(before, targetScroll, ease);
      frame := Frame(-currentScroll, Scrollbar(currentScroll, g), currentScroll);
      again := Abs(targetScroll - currentScroll) > STOP_THRESHOLD;
      if !again {
        scrollToLoops := scrollToLoops - multiset{ease};
      }
    }

    /** Runs the frames of one `scrollTo` loop stepping with `ease`, with no
        other frame in between, until it stops rescheduling itself. */
    method ScrollToUntilRest(ease: real, g: Geometry) returns (frames: nat)
      requires g.Valid() && ease in scrollToLoops && 0.0 < ease <= 1.0
      modifies this`currentScroll, this`scrollToLoops
      ensures currentScroll == Settle(old(currentScroll), targetScroll, ease)
      ensures scrollToLoops == old(scrollToLoops) - multiset{ease}
      ensures frames >= 1
    {
      ghost var start := currentScroll;
      var again := true;
      frames := 0;
      while again
        invariant again ==> ease in scrollToLoops && scrollToLoops == old(scrollToLoops)
        invariant !again ==> scrollToLoops == old(scrollToLoops) - multiset{ease}
        invariant again ==> Settle(start, targetScroll, ease) == Settle(currentScroll, targetScroll, ease)
        invariant !again ==> Settle(start, targetScroll, ease) == currentScroll && frames >= 1
        decreases if again then Measure(Abs(targetScroll - currentScroll), ease) + 1 else 0
      {
        ghost var before := currentScroll;
        if KeepsStepping(EaseStep(before, targetScroll, ease), targetScroll) {
          MeasureDrops(before, targetScroll, ease);
        }
        var frame;
        frame, again := ScrollToStep(ease, g);
        frames := frames + 1;
      }
    }

    /** `mousedown` on the thumb starts a drag from the eased offset. */
    method MouseDown(clientY: real)
      modifies this`isDragging, this`dragStartY, this`dragStartScroll, this`selectionSuppressed
      ensures isDragging && selectionSuppressed
      ensures dragStartY == clientY && dragStartScroll == currentScroll
    {
      isDragging := true;
      dragStartY := clientY;
      dragStartScroll := currentScroll;
      selectionSuppressed := true;
    }

    /** `mousemove` on the window: while dragging, the native offset to
        request; nothing otherwise. */
    method MouseMove(clientY: real, g: Geometry, thumbHeight: real) returns (request: Option<real>)
      ensures !isDragging ==> request == None
      ensures isDragging ==> request.Some?
      ensures request.Some? ==> 0.0 <= request.value <= Max(0.0, g.MaxScroll())
      ensures request.Some? ==> request.value == ClampTarget(dragStartScroll + DragDelta(clientY - dragStartY, g, thumbHeight), g)
    {
      if !isDragging {
        return None;
      }
      var delta := clientY - dragStartY;
      var scrollHeight := g.MaxScroll();
      var draggable := g.trackHeight - thumbHeight;
      var scrollDelta := (delta / (if draggable == 0.0 then 1.0 else draggable)) * scrollHeight;
      request := Some(Max(0.0, Min(scrollHeight, dragStartScroll + scrollDelta)));
    }

    /** `mouseup` on the window ends any drag. */
    method MouseUp()
      modifies this`isDragging, this`selectionSuppressed
      ensures !isDragging && !selectionSuppressed
    {
      isDragging := false;
      selectionSuppressed := false;
    }

    /** The `resize` and ResizeObserver handlers: the body height to set and
        the redrawn thumb.  The scroll state is left as it is. */
    method Resync(g: Geometry) returns (bodyHeight: real, thumb: Thumb)
      requires g.Valid()
      ensures bodyHeight == g.contentHeight
      ensures thumb == Scrollbar(currentScroll, g)
      ensures thumb.height >= MIN_THUMB
    {
      bodyHeight := g.contentHeight;
      thumb := Scrollbar(currentScroll, g);
    }

    /** The initial setup and the `load` handler: resynchronise the height
        and the scrollbar, then run `onScroll` on the native offset. */
    method Sync(scrollY: real, g: Geometry) returns (bodyHeight: real, thumb: Thumb, scheduled: bool)
      requires Valid() && g.Valid()
      modifies this`targetScroll, this`isScrolling, this`mainFrames
      ensures Valid() && isScrolling && mainFrames == 1
      ensures targetScroll == ClampTarget(scrollY, g)
      ensures scheduled == !old(isScrolling)
      ensures bodyHeight == g.contentHeight && thumb == Scrollbar(currentScroll, g)
    {
      bodyHeight, thumb := Resync(g);
      scheduled := OnScroll(scrollY, g);
    }
  }

  /** Two native scroll events before the first frame: the second schedules
      nothing, and the single loop comes to rest next to the second event's
      clamped offset, whatever the first asked for. */
  method Redirect(y0: real, y1: real, y2: real, g: Geometry) returns (rest: real, scheduled1: bool, scheduled2: bool)
    requires g.Valid()
    ensures scheduled1 && !scheduled2
    ensures Abs(ClampTarget(y2, g) - rest) <= STOP_THRESHOLD
    ensures Between(y0, ClampTarget(y2, g), rest)
  {
    var engine := new ScrollEngine(y0);
    scheduled1 := engine.OnScroll(y1, g);
    scheduled2 := engine.OnScroll(y2, g);
    var frames := engine.RunUntilRest(g);
    rest := engine.GetScroll();
  }

  /** The start of custom-scroll.js: at the mobile width or below nothing is
      installed; otherwise an engine at the native offset, followed at once
      by the initial setup (body height, scrollbar, `onScroll`), which starts
      the main loop. */
  method Install(innerWidth: int, scrollY: real, g: Geometry) returns (engine: ScrollEngine?, bodyHeight: real, thumb: Thumb)
    requires g.Valid()
    ensures engine != null <==> Enabled(innerWidth)
    ensures engine != null ==> fresh(engine) && engine.Valid()
    ensures engine != null ==> engine.isScrolling && engine.mainFrames == 1
    ensures engine != null ==> engine.targetScroll == ClampTarget(scrollY, g) && engine.currentScroll == scrollY
    ensures engine != null ==> engine.scrollToLoops == multiset{} && !engine.isDragging
    ensures engine != null ==> bodyHeight == g.contentHeight && thumb == Scrollbar(scrollY, g)
  {
    engine, bodyHeight, thumb := null, 0.0, Thumb(0.0, 0.0);
    if innerWidth <= DESKTOP_MIN_WIDTH {
      return;
    }
    engine := new ScrollEngine(scrollY);
    var scheduled;
    bodyHeight, thumb, scheduled := engine.Sync(scrollY, g);
  }

  /** How many `scrollTo` loops of the default ease are still running. */
  function Loops(first: bool, second: bool): nat {
    (if first then 1 else 0) + (if second then 1 else 0)
  }

  function Running(first: bool, second: bool, main: bool): nat {
    (if first then 1 else 0) + (if second then 1 else 0) + (if main then 1 else 0)
  }

  /** A frame with the default ease never leaves the span from the offset to
      the target; from a gap within the threshold it stops; and when it is
      followed by another frame it removes a unit of the variant. */
  lemma FrameFacts(c: real, t: real)
    ensures Between(c, t, EaseStep(c, t, EASE))
    ensures Abs(t - c) <= STOP_THRESHOLD ==> !KeepsStepping(EaseStep(c, t, EASE), t)
    ensures KeepsStepping(EaseStep(c, t, EASE), t) ==>
              Measure(Abs(t - EaseStep(c, t, EASE)), EASE) < Measure(Abs(t - c), EASE)
  {
    EaseStepProperties(c, t, EASE);
    if KeepsStepping(EaseStep(c, t, EASE), t) {
      MeasureDrops(c, t, EASE);
    }
  }

  /** What holds between the frames of the scenario below: the offset lies
      between the start and the target, and once a callback has stopped the
      gap is within the threshold. */
  predicate RedirectInv(y0: real, t: real, c: real, first: bool, second: bool, main: bool) {
    Between(y0, t, c) && (!(first && second && main) ==> Abs(t - c) <= STOP_THRESHOLD)
  }

  /** A callback of the default ease that may already have stopped. */
  function StepIf(running: bool, c: real, t: real): real {
    if running then EaseStep(c, t, EASE) else c
  }

  /** One frame of three callbacks with the default ease, on values: from
      `c0` the running ones step in turn to `c3`, and each stays running when
      its own step leaves a gap above the threshold.  The frame stays within
      the span to the target; either a callback stops or the variant drops;
      and once one has stopped the gap is within the threshold. */
  lemma ThreeFrameFacts(y0: real, c0: real, c1: real, c2: real, c3: real, t: real,
                        f: bool, s: bool, m: bool, f': bool, s': bool, m': bool)
    requires f || s || m
    requires RedirectInv(y0, t, c0, f, s, m)
    requires c1 == StepIf(f, c0, t) && f' == (f && KeepsStepping(c1, t))
    requires c2 == StepIf(s, c1, t) && s' == (s && KeepsStepping(c2, t))
    requires c3 == StepIf(m, c2, t) && m' == (m && KeepsStepping(c3, t))
    ensures RedirectInv(y0, t, c3, f', s', m')
    ensures Running(f', s', m') < Running(f, s, m)
            || Measure(Abs(t - c3), EASE) < Measure(Abs(t - c0), EASE)
  {
    FrameFacts(c0, t);
    FrameFacts(c1, t);
    FrameFacts(c2, t);
  }

  /** The callback of a `scrollTo` loop with the default ease in a frame,
      if that loop still runs. */
  method ScrollToCallback(engine: ScrollEngine, running: bool, g: Geometry) returns (running': bool)
    requires g.Valid() && (running ==> engine.scrollToLoops[EASE] > 0)
    modifies engine`currentScroll, engine`scrollToLoops
    ensures engine.currentScroll == StepIf(running, old(engine.currentScroll), engine.targetScroll)
    ensures running' == (running && KeepsStepping(engine.currentScroll, engine.targetScroll))
    ensures engine.scrollToLoops[EASE] + (if running && !running' then 1 else 0)
            == old(engine.scrollToLoops)[EASE]
  {
    running' := false;
    if running {
      var frame;
      frame, running' := engine.ScrollToStep(EASE, g);
    }
  }

  /** The `smoothScrollStep` callback in a frame, if the main loop runs. */
  method MainCallback(engine: ScrollEngine, running: bool, g: Geometry) returns (running': bool)
    requires g.Valid() && engine.Valid() && engine.isScrolling == running
    modifies engine`currentScroll, engine`isScrolling, engine`mainFrames
    ensures engine.Valid() && engine.isScrolling == running'
    ensures engine.currentScroll == StepIf(running, old(engine.currentScroll), engine.targetScroll)
    ensures running' == (running && KeepsStepping(engine.currentScroll, engine.targetScroll))
  {
    running' := false;
    if running {
      var frame;
      frame, running' := engine.Step(g);
    }
  }

  /** Two `scrollTo` calls before the first frame.  Each starts a loop with
      the default ease; the native position they request raises one `scroll`
      event, whose handler starts the main loop.  In every frame the three
      callbacks run in the order they were requested, all stepping the same
      offset toward the second call's target, and all stop once the gap is
      down to the threshold. */
  method ScrollToRedirect(y0: real, y1: real, y2: real, g: Geometry) returns (rest: real, frames: nat)
    requires g.Valid()
    ensures Abs(ClampTarget(y2, g) - rest) <= STOP_THRESHOLD
    ensures Between(y0, ClampTarget(y2, g), rest)
    ensures frames >= 1
  {
    var engine := new ScrollEngine(y0);
    var n1 := engine.ScrollTo(y1, None, None, g);
    var n2 := engine.ScrollTo(y2, None, None, g);
    var t := engine.targetScroll;
    var main := engine.OnScroll(n2, g);
    assert engine.targetScroll == t == ClampTarget(y2, g);
    var first, second := true, true;
    frames := 0;
    while first || second || main
      invariant engine.targetScroll == t
      invariant engine.scrollToLoops[EASE] == Loops(first, second)
      invariant engine.Valid() && engine.isScrolling == main
      invariant RedirectInv(y0, t, engine.currentScroll, first, second, main)
      invariant frames == 0 ==> first && second && main
      decreases Running(first, second, main), Measure(Abs(t - engine.currentScroll), EASE)
    {
      ghost var f, s, m, c0 := first, second, main, engine.currentScroll;
      first := ScrollToCallback(engine, first, g);
      ghost var c1 := engine.currentScroll;
      second := ScrollToCallback(engine, second, g);
      ghost var c2 := engine.currentScroll;
      main := MainCallback(engine, main, g);
      ThreeFrameFacts(y0, c0, c1, c2, engine.currentScroll, t, f, s, m, first, second, main);
      frames := frames + 1;
    }
    rest := engine.GetScroll();
  }
}
