/** A click-to-slide object (src/slidable.ts): it toggles between its
    original position and that position plus a move vector, animated with
    `Vector3.Lerp` at a constant speed. */
module Slidables {
  import opened Math3D
  import opened Scene
  import opened Tweens

  class Slidable {
    const trans: Transform
    var isAnimating: bool
    var isAtTarget: bool
    const originalPos: Vector3
    const moveVector: Vector3
    const targetPos: Vector3
    var startPos: Vector3
    var endPos: Vector3
    const duration: real
    var fraction: real
    var elapsed: real
    const speed: real

    /** The animation state the slider's fields and its transform hold. */
    function Animation(): Tween<Vector3>
      reads this, trans
    {
      Tween(trans.position, startPos, endPos, elapsed, fraction, isAnimating, isAtTarget)
    }

    predicate Valid()
      reads this, trans
    {
      speed > 0.0 && Tweens.Valid(Animation(), duration)
    }

    /** The constructor: the target is the original position plus the move
        vector; a duration that is not positive falls back to 2 and a speed
        to 1. */
    constructor(t: Transform, move: Vector3, dur: real, spd: real)
      ensures trans == t && originalPos == t.position && moveVector == move
      ensures targetPos == Add(t.position, move)
      ensures duration == PositiveOr(dur, 2.0) && speed == PositiveOr(spd, 1.0)
      ensures !isAnimating && !isAtTarget && elapsed == 0.0
      ensures Valid()
    {
      trans := t;
      isAnimating := false;
      isAtTarget := false;
      originalPos := t.position;
      moveVector := move;
      targetPos := Add(t.position, move);
      startPos := t.position;
      endPos := t.position;
      duration := PositiveOr(dur, 2.0);
      fraction := 0.0;
      elapsed := 0.0;
      speed := PositiveOr(spd, 1.0);
    }

    /** `togglePos`: ignored while animating; otherwise slide back to the
        original position from the target, or to the target otherwise. */
    method TogglePos()
      modifies this
      ensures Animation() == Toggle(old(Animation()), originalPos, targetPos)
      ensures old(Valid()) ==> Valid()
    {
      if isAnimating {
        return;
      }
      var nextPos: Vector3;
      if isAtTarget {
        nextPos := originalPos;
      } else {
        nextPos := targetPos;
      }
      MoveTo(nextPos);
    }

    /** `moveTo`: slide from the current position to `nextPos`. */
    method MoveTo(nextPos: Vector3)
      modifies this
      ensures Animation() == Begin(old(Animation()), nextPos)
    {
      startPos := trans.position;
      endPos := nextPos;
      elapsed := 0.0;
      fraction := 0.0;
      isAnimating := true;
    }

    /** `nextFrame`: slide only while animating. */
    method NextFrame(dt: real)
      requires Valid()
      modifies this, trans
      ensures Animation() == Frame(old(Animation()), dt * speed, duration, Lerp, true)
      ensures dt >= 0.0 ==> Valid()
    {
      if isAnimating {
        Move(dt);
      }
      if dt >= 0.0 {
        FrameKeepsValid(old(Animation()), dt * speed, duration, Lerp, true);
      }
    }

    /** `move`: advance the clock; past the duration show the end position,
        flip `isAtTarget` and stop; otherwise lerp to the fraction elapsed. */
    method Move(dt: real)
      requires duration > 0.0
      modifies this, trans
      ensures Animation() == Advance(old(Animation()), dt * speed, duration, Lerp, true)
    {
      elapsed := elapsed + dt * speed;
      var newPos: Vector3;
      if elapsed > duration {
        newPos := endPos;
        isAtTarget := if isAtTarget then false else true;
        isAnimating := false;
      } else {
        fraction := elapsed / duration;
        newPos := Lerp(startPos, endPos, fraction);
      }
      trans.position := newPos;
    }
  }
}
