/** The floating monitor service: an overlay window showing the frame rate,
    dragged around the screen, with a process-wide `isRunning` flag. Frames,
    drags and clock readings (`System.nanoTime`) are explicit events and
    parameters; the window manager is reduced to whether the view is added. */
module FloatingMonitor {
  import opened Numerics

  /** Length of one FPS measurement window, in nanoseconds. */
  const WINDOW_NANOS: int := 1_000_000_000

  /** The overlay's initial position on both axes, in pixels. */
  const START_POSITION: int := 100

  /** The frame counter's variables: `frameCount` and `startTime` are the
      locals the frame callback captures, `fps` the displayed state. */
  datatype FpsState = FpsState(frameCount: int, startTime: int, fps: int)

  /** One `doFrame` call at time `now`: count the frame; once a full second
      has passed since the window began, publish the count and start a new
      window. `frameCount` is a Kotlin `Int`, so the increment wraps. */
  function Step(s: FpsState, now: int): FpsState
  {
    var count := Wrap32(s.frameCount + 1);
    if now - s.startTime >= WINDOW_NANOS then FpsState(0, now, count)
    else FpsState(count, s.startTime, s.fps)
  }

  /** The state after a sequence of frames at the given times. */
  function Run(s: FpsState, times: seq<int>): FpsState
    decreases |times|
  {
    if times == [] then s else Run(Step(s, times[0]), times[1..])
  }

  /** Frames that all come less than a second after the window began add one
      each to the count and leave the displayed rate and the window alone. */
  lemma {:induction false} QuietFrames(s: FpsState, times: seq<int>)
    requires 0 <= s.frameCount && s.frameCount + |times| <= INT_MAX
    requires forall i :: 0 <= i < |times| ==> times[i] - s.startTime < WINDOW_NANOS
    ensures Run(s, times) == FpsState(s.frameCount + |times|, s.startTime, s.fps)
    decreases |times|
  {
    if times != [] {
      var s' := Step(s, times[0]);
      assert s' == FpsState(s.frameCount + 1, s.startTime, s.fps);
      QuietFrames(s', times[1..]);
    }
  }

  /** The frame that closes a window publishes the number of frames counted
      in it, itself included, resets the count and starts the next window at
      its own time. */
  lemma {:induction false} WindowCloses(s: FpsState, times: seq<int>)
    requires times != []
    requires 0 <= s.frameCount && s.frameCount + |times| <= INT_MAX
    requires forall i :: 0 <= i < |times| - 1 ==> times[i] - s.startTime < WINDOW_NANOS
    requires times[|times| - 1] - s.startTime >= WINDOW_NANOS
    ensures Run(s, times) == FpsState(0, times[|times| - 1], s.frameCount + |times|)
    decreases |times|
  {
    var s' := Step(s, times[0]);
    if |times| == 1 {
      assert Run(s', times[1..]) == s';
    } else {
      assert s' == FpsState(s.frameCount + 1, s.startTime, s.fps);
      WindowCloses(s', times[1..]);
    }
  }

  /** The displayed rate only ever changes to a count published at a window
      boundary, and right after a boundary the count is zero. */
  lemma StepPublishesOnlyAtBoundary(s: FpsState, now: int)
    requires 0 <= s.frameCount < INT_MAX
    ensures var r := Step(s, now);
            (r.fps == s.fps && r.startTime == s.startTime && r.frameCount == s.frameCount + 1) ||
            (now - s.startTime >= WINDOW_NANOS && r.fps == s.frameCount + 1 && r.frameCount == 0 && r.startTime == now)
  {
  }

  /** The frame callback's state. */
  class FpsCounter {
    var frameCount: int
    var startTime: int
    var fps: int

    function State(): FpsState
      reads this
    {
      FpsState(frameCount, startTime, fps)
    }

    /** The effect's start: no frames counted, the window begins now and the
        displayed rate is 0. */
    constructor (now: int)
      ensures State() == FpsState(0, now, 0)
    {
      frameCount := 0;
      startTime := now;
      fps := 0;
    }

    method DoFrame(now: int)
      modifies this
      ensures State() == Step(old(State()), now)
    {
      frameCount := Wrap32(frameCount + 1);
      var currentTime := now;
      if currentTime - startTime >= WINDOW_NANOS {
        fps := frameCount;
        frameCount := 0;
        startTime := currentTime;
      }
    }
  }

  /** One coordinate of a drag: `x += dx.toInt()` on a Kotlin `Int`. */
  function DragStep(pos: int, delta: real): int
  {
    Wrap32(pos + ToInt(Finite(delta)))
  }

  /** The position after a sequence of drag deltas, one event at a time. */
  function PositionAfter(start: int, deltas: seq<real>): int
  {
    if deltas == [] then start else DragStep(PositionAfter(start, deltas[..|deltas| - 1]), deltas[|deltas| - 1])
  }

  /** The sum of the truncated deltas. */
  function TruncatedSum(deltas: seq<real>): int
  {
    if deltas == [] then 0 else TruncatedSum(deltas[..|deltas| - 1]) + ToInt(Finite(deltas[|deltas| - 1]))
  }

  /** After any number of drags the position is the start plus the sum of
      the truncated deltas, taken modulo 2^32 once at the end. */
  lemma {:induction false} PositionIsStartPlusSum(start: int, deltas: seq<real>)
    requires IsInt(start)
    ensures PositionAfter(start, deltas) == Wrap32(start + TruncatedSum(deltas))
  {
    if deltas != [] {
      var init := deltas[..|deltas| - 1];
      var d := ToInt(Finite(deltas[|deltas| - 1]));
      PositionIsStartPlusSum(start, init);
      Wrap32Add(start + TruncatedSum(init), d);
    }
  }

  /** Without overflow the position is exactly the start plus the sum. */
  lemma PositionWithoutOverflow(start: int, deltas: seq<real>)
    requires IsInt(start) && IsInt(start + TruncatedSum(deltas))
    ensures PositionAfter(start, deltas) == start + TruncatedSum(deltas)
  {
    PositionIsStartPlusSum(start, deltas);
  }

  /** The companion object's flag, shared by every instance of the service
      and read by the activity. */
  class Companion {
    var isRunning: bool

    constructor ()
      ensures !isRunning
    {
      isRunning := false;
    }
  }

  /** The service instance: the overlay's layout position, whether
      `floatingView` has been set, whether that view is added to the window
      manager, whether the service job is cancelled, whether the frame
      callback is posted to the choreographer, and the frame counter. */
  class FloatingMonitorService {
    var x: int
    var y: int
    var hasView: bool
    var viewAdded: bool
    var jobCancelled: bool
    var frameCallbackPosted: bool
    var counter: FpsCounter

    /** A view can only be added once it has been created. */
    ghost predicate Valid()
      reads this
    {
      (viewAdded ==> hasView) && IsInt(x) && IsInt(y)
    }

    constructor ()
      ensures Valid() && !hasView && !viewAdded && !jobCancelled && !frameCallbackPosted
      ensures fresh(counter)
    {
      x := 0;
      y := 0;
      hasView := false;
      viewAdded := false;
      jobCancelled := false;
      frameCallbackPosted := false;
      counter := new FpsCounter(0);
    }

    /** `onCreate`: the flag is raised and the overlay is shown at (100, 100). */
    method OnCreate(flag: Companion)
      requires Valid()
      modifies this, flag
      ensures Valid()
      ensures flag.isRunning
      ensures x == START_POSITION && y == START_POSITION && hasView && viewAdded
      ensures jobCancelled == old(jobCancelled) && frameCallbackPosted == old(frameCallbackPosted)
      ensures counter == old(counter)
    {
      flag.isRunning := true;
      ShowFloatingWindow();
    }

    method ShowFloatingWindow()
      modifies this
      ensures Valid()
      ensures x == START_POSITION && y == START_POSITION && hasView && viewAdded
      ensures jobCancelled == old(jobCancelled) && frameCallbackPosted == old(frameCallbackPosted)
      ensures counter == old(counter)
    {
      x := START_POSITION;
      y := START_POSITION;
      hasView := true;
      viewAdded := true;
    }

    /** The FPS effect's launch at time `now`: fresh counter variables and
        the callback posted. */
    method StartFpsEffect(now: int)
      requires Valid()
      modifies this
      ensures Valid()
      ensures fresh(counter) && counter.State() == FpsState(0, now, 0)
      ensures frameCallbackPosted
      ensures x == old(x) && y == old(y) && hasView == old(hasView) && viewAdded == old(viewAdded)
      ensures jobCancelled == old(jobCancelled)
    {
      counter := new FpsCounter(now);
      frameCallbackPosted := true;
    }

    /** A display frame at time `now`: a posted callback runs `doFrame` and
        posts itself again. */
    method OnVsync(now: int)
      requires Valid()
      modifies this, counter
      ensures Valid()
      ensures old(frameCallbackPosted) ==> counter.State() == Step(old(counter.State()), now)
      ensures !old(frameCallbackPosted) ==> counter.State() == old(counter.State())
      ensures frameCallbackPosted == old(frameCallbackPosted)
      ensures x == old(x) && y == old(y) && hasView == old(hasView) && viewAdded == old(viewAdded)
      ensures jobCancelled == old(jobCancelled) && counter == old(counter)
    {
      if frameCallbackPosted {
        counter.DoFrame(now);
        frameCallbackPosted := true;
      }
    }

    /** A drag by (dx, dy) pixels moves the window by the truncated deltas. */
    method OnDrag(dx: real, dy: real)
      requires Valid()
      modifies this
      ensures Valid()
      ensures x == DragStep(old(x), dx) && y == DragStep(old(y), dy)
      ensures hasView == old(hasView) && viewAdded == old(viewAdded)
      ensures jobCancelled == old(jobCancelled) && frameCallbackPosted == old(frameCallbackPosted)
      ensures counter == old(counter)
    {
      x := Wrap32(x + ToInt(Finite(dx)));
      y := Wrap32(y + ToInt(Finite(dy)));
    }

    /** `onDestroy` as written: the flag is lowered, the job cancelled and the
        view removed if there is one; the frame callback stays posted. */
    method OnDestroy(flag: Companion)
      requires Valid()
      modifies this, flag
      ensures Valid()
      ensures !flag.isRunning && jobCancelled && !viewAdded
      ensures frameCallbackPosted == old(frameCallbackPosted)
      ensures x == old(x) && y == old(y) && hasView == old(hasView) && counter == old(counter)
    {
      flag.isRunning := false;
      jobCancelled := true;
      if hasView {
        viewAdded := false;
      }
    }

    /** `onDestroy` with the frame callback removed as well. */
    method OnDestroyReleasingFrames(flag: Companion)
      requires Valid()
      modifies this, flag
      ensures Valid()
      ensures !flag.isRunning && jobCancelled && !viewAdded && !frameCallbackPosted
      ensures x == old(x) && y == old(y) && hasView == old(hasView) && counter == old(counter)
    {
      OnDestroy(flag);
      frameCallbackPosted := false;
    }
  }

  /** A service created, started, destroyed and then shown one more display
      frame still counts that frame. */
  method DestroyedServiceStillCounts() returns (frames: int)
    ensures frames == 1
  {
    var flag := new Companion();
    var service := new FloatingMonitorService();
    service.OnCreate(flag);
    service.StartFpsEffect(0);
    service.OnDestroy(flag);
    service.OnVsync(1);
    frames := service.counter.frameCount;
  }

  /** With the callback removed on destroy, the same frame is not counted. */
  method DestroyedServiceStopsCounting() returns (frames: int)
    ensures frames == 0
  {
    var flag := new Companion();
    var service := new FloatingMonitorService();
    service.OnCreate(flag);
    service.StartFpsEffect(0);
    service.OnDestroyReleasingFrames(flag);
    service.OnVsync(1);
    frames := service.counter.frameCount;
  }
}
