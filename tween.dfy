/** The frame-stepped animation shared by `Slidable` (src/slidable.ts),
    `Rotatable3` (src/rotatable3.ts) and `NumberWheel` (src/numberwheel.ts).

    Each of those components holds an animation state: the pose it is
    showing, the start and end poses, the elapsed time, the fraction of the
    way done, and the `isAnimating` and `isAtTarget` flags. The pose type is a
    parameter (a position for the slider, a rotation for the others), and so is
    the host's interpolation (`Vector3.Lerp`, `Quaternion.Slerp`). */
module Tweens {

  /** A constructor argument that must be positive, or else the default. */
  function PositiveOr(x: real, default: real): (r: real)
    requires default > 0.0
    ensures r > 0.0
    ensures x > 0.0 ==> r == x
    ensures x <= 0.0 ==> r == default
  {
    if x > 0.0 then x else default
  }

  datatype Tween<T> = Tween(current: T, start: T, end: T, elapsed: real, fraction: real,
                            isAnimating: bool, isAtTarget: bool)

  /** The state every frame keeps: a positive duration, a non-negative clock
      that has not passed the duration while animating, and a fraction in [0, 1]. */
  predicate Valid<T>(tw: Tween<T>, duration: real) {
    duration > 0.0 && 0.0 <= tw.elapsed && 0.0 <= tw.fraction <= 1.0
    && (tw.isAnimating ==> tw.elapsed <= duration)
  }

  /** `moveTo` / `rotateTo`: animate from the current pose to `next`. */
  function Begin<T>(tw: Tween<T>, next: T): (r: Tween<T>)
    ensures r.start == tw.current && r.end == next && r.current == tw.current
    ensures r.isAnimating && r.elapsed == 0.0 && r.fraction == 0.0 && r.isAtTarget == tw.isAtTarget
  {
    tw.(start := tw.current, end := next, elapsed := 0.0, fraction := 0.0, isAnimating := true)
  }

  /** `togglePos` / `toggleRotation`: ignored while animating; otherwise head
      back to `original` from the target and to `target` from anywhere else. */
  function Toggle<T>(tw: Tween<T>, original: T, target: T): (r: Tween<T>)
    ensures tw.isAnimating ==> r == tw
    ensures !tw.isAnimating ==> r == Begin(tw, if tw.isAtTarget then original else target)
  {
    if tw.isAnimating then tw else Begin(tw, if tw.isAtTarget then original else target)
  }

  /** `move` / `rotate`: advance the clock by `step` (the frame time times the
      speed); once it is past the duration, show the end pose and stop,
      flipping `isAtTarget` when `flips`; otherwise show the interpolation at
      the fraction of the duration elapsed. */
  function Advance<T>(tw: Tween<T>, step: real, duration: real, interp: (T, T, real) -> T, flips: bool): Tween<T>
    requires duration > 0.0
  {
    var e := tw.elapsed + step;
    if e > duration then
      tw.(current := tw.end, elapsed := e, isAnimating := false,
          isAtTarget := if flips then !tw.isAtTarget else tw.isAtTarget)
    else
      var f := e / duration;
      tw.(current := interp(tw.start, tw.end, f), elapsed := e, fraction := f)
  }

  /** `nextFrame`: advance only while animating. */
  function Frame<T>(tw: Tween<T>, step: real, duration: real, interp: (T, T, real) -> T, flips: bool): (r: Tween<T>)
    requires duration > 0.0
    ensures !tw.isAnimating ==> r == tw
    ensures tw.isAnimating ==> r == Advance(tw, step, duration, interp, flips)
  {
    if tw.isAnimating then Advance(tw, step, duration, interp, flips) else tw
  }

  /** One frame of an animation keeps `Valid` for a non-negative step; it
      either stops exactly when the clock passes the duration, showing the end
      pose, or shows the interpolation at the fraction elapsed. */
  lemma FrameKeepsValid<T>(tw: Tween<T>, step: real, duration: real, interp: (T, T, real) -> T, flips: bool)
    requires Valid(tw, duration) && step >= 0.0
    ensures var r := Frame(tw, step, duration, interp, flips);
            && Valid(r, duration)
            && (tw.isAnimating ==> r.elapsed == tw.elapsed + step)
            && (tw.isAnimating && !r.isAnimating ==> r.current == tw.end && r.elapsed > duration)
            && (r.isAnimating ==> r.current == interp(r.start, r.end, r.fraction) && r.fraction == r.elapsed / duration)
            && r.start == tw.start && r.end == tw.end
  {
    if tw.isAnimating && tw.elapsed + step <= duration {
      FractionInUnit(tw.elapsed + step, duration);
    }
  }

  lemma FractionInUnit(e: real, duration: real)
    requires 0.0 <= e <= duration && duration > 0.0
    ensures 0.0 <= e / duration <= 1.0
  {
    assert e / duration * duration == e;
  }

  /** `n` frames with the same step. */
  function Run<T>(tw: Tween<T>, step: real, duration: real, interp: (T, T, real) -> T, flips: bool, n: nat): Tween<T>
    requires duration > 0.0
    decreases n
  {
    if n == 0 then tw else Run(Frame(tw, step, duration, interp, flips), step, duration, interp, flips, n - 1)
  }

  /** While a run is still animating, its clock has advanced one step per
      frame and has not passed the duration; start and end poses never change. */
  lemma {:induction false} RunClock<T>(tw: Tween<T>, step: real, duration: real, interp: (T, T, real) -> T,
                                       flips: bool, n: nat)
    requires Valid(tw, duration) && step >= 0.0
    ensures var r := Run(tw, step, duration, interp, flips, n);
            && Valid(r, duration)
            && (r.isAnimating ==> tw.isAnimating && r.elapsed == tw.elapsed + (n as real) * step)
            && r.start == tw.start && r.end == tw.end
    decreases n
  {
    if n > 0 {
      var next := Frame(tw, step, duration, interp, flips);
      FrameKeepsValid(tw, step, duration, interp, flips);
      RunClock(next, step, duration, interp, flips, n - 1);
    }
  }

  /** Once the animation has stopped, further frames change nothing. */
  lemma {:induction false} RunAtRest<T>(tw: Tween<T>, step: real, duration: real, interp: (T, T, real) -> T,
                                        flips: bool, n: nat)
    requires duration > 0.0 && !tw.isAnimating
    ensures Run(tw, step, duration, interp, flips, n) == tw
    decreases n
  {
    if n > 0 {
      RunAtRest(tw, step, duration, interp, flips, n - 1);
    }
  }

  /** A run that ends at rest after starting an animation shows the end pose
      and has flipped `isAtTarget` exactly once when `flips`. */
  lemma {:induction false} RunOutcome<T>(tw: Tween<T>, step: real, duration: real, interp: (T, T, real) -> T,
                                         flips: bool, n: nat)
    requires duration > 0.0 && tw.isAnimating
    requires !Run(tw, step, duration, interp, flips, n).isAnimating
    ensures var r := Run(tw, step, duration, interp, flips, n);
            && r.current == tw.end && r.end == tw.end
            && r.isAtTarget == (if flips then !tw.isAtTarget else tw.isAtTarget)
    decreases n
  {
    if n > 0 {
      var next := Frame(tw, step, duration, interp, flips);
      if next.isAnimating {
        RunOutcome(next, step, duration, interp, flips, n - 1);
      } else {
        RunAtRest(next, step, duration, interp, flips, n - 1);
      }
    }
  }

  /** The number of frames within which an animation that has just begun
      ends: one more than the whole number of steps in the duration. */
  function FrameBound(duration: real, step: real): (n: nat)
    requires duration > 0.0 && step > 0.0
    ensures (n as real) * step > duration
  {
    var k := (duration / step).Floor;
    assert k as real > duration / step - 1.0;
    BoundCoversDuration(duration, step, k);
    k + 1
  }

  lemma BoundCoversDuration(duration: real, step: real, k: int)
    requires duration > 0.0 && step > 0.0 && k as real > duration / step - 1.0
    ensures k >= 0 && ((k + 1) as real) * step > duration
  {
    var q := duration / step;
    assert q * step == duration;
    assert q > 0.0;
    assert (k + 1) as real > q;
    assert ((k + 1) as real) * step > q * step;
  }

  /** For a positive step an animation that has just begun has stopped after
      `FrameBound(duration, step)` frames, showing its end pose. */
  lemma AnimationEnds<T>(tw: Tween<T>, step: real, duration: real, interp: (T, T, real) -> T, flips: bool)
    requires tw.isAnimating && tw.elapsed == 0.0 && 0.0 <= tw.fraction <= 1.0
    requires step > 0.0 && duration > 0.0
    ensures var r := Run(tw, step, duration, interp, flips, FrameBound(duration, step));
            && !r.isAnimating && r.current == tw.end
            && r.isAtTarget == (if flips then !tw.isAtTarget else tw.isAtTarget)
  {
    var n := FrameBound(duration, step);
    RunClock(tw, step, duration, interp, flips, n);
    RunOutcome(tw, step, duration, interp, flips, n);
  }

  /** Toggling and letting the animation run to its end. */
  function ToggleAndFinish<T>(tw: Tween<T>, original: T, target: T, step: real, duration: real,
                              interp: (T, T, real) -> T): Tween<T>
    requires duration > 0.0 && step > 0.0
  {
    Run(Toggle(tw, original, target), step, duration, interp, true, FrameBound(duration, step))
  }

  /** From rest at the original pose, a completed toggle reaches the target
      with `isAtTarget` set, and a second one returns to the original with it
      cleared. */
  lemma ToggleTwiceReturns<T>(tw: Tween<T>, original: T, target: T, step: real, duration: real,
                              interp: (T, T, real) -> T)
    requires !tw.isAnimating && !tw.isAtTarget && 0.0 <= tw.fraction <= 1.0
    requires step > 0.0 && duration > 0.0
    ensures var once := ToggleAndFinish(tw, original, target, step, duration, interp);
            var twice := ToggleAndFinish(once, original, target, step, duration, interp);
            && once.current == target && once.isAtTarget && !once.isAnimating
            && twice.current == original && !twice.isAtTarget && !twice.isAnimating
  {
    var once := ToggleAndFinish(tw, original, target, step, duration, interp);
    AnimationEnds(Toggle(tw, original, target), step, duration, interp, true);
    AnimationEnds(Toggle(once, original, target), step, duration, interp, true);
  }
}
