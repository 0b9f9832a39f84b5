/** A click-to-rotate object (src/rotatable3.ts): it toggles between its
    original rotation and that rotation composed with a fixed Euler change,
    animated with `Quaternion.Slerp` at a constant speed. `Quaternion.Euler`
    and `Quaternion.Slerp` are host functions, passed as parameters. */
module Rotatables {
  import opened Math3D
  import opened Scene
  import opened Tweens

  class Rotatable3 {
    const trans: Transform
    var isAnimating: bool
    var isAtTarget: bool
    const originalRotation: Quaternion
    const targetRotation: Quaternion
    var startRotation: Quaternion
    var endRotation: Quaternion
    const duration: real
    var fraction: real
    var elapsed: real
    const speed: real

    /** The animation state the rotator's fields and its transform hold. */
    function Animation(): Tween<Quaternion>
      reads this, trans
    {
      Tween(trans.rotation, startRotation, endRotation, elapsed, fraction, isAnimating, isAtTarget)
    }

    predicate Valid()
      reads this, trans
    {
      speed > 0.0 && Tweens.Valid(Animation(), duration)
    }

    /** The constructor: the target is the original rotation times the
        rotation of the Euler angles `change`; a duration that is not positive
        falls back to 2 and a speed to 1. */
    constructor(t: Transform, change: Vector3, dur: real, spd: real, euler: (real, real, real) -> Quaternion)
      ensures trans == t && originalRotation == t.rotation
      ensures targetRotation == Multiply(t.rotation, euler(change.x, change.y, change.z))
      ensures duration == PositiveOr(dur, 2.0) && speed == PositiveOr(spd, 1.0)
      ensures !isAnimating && !isAtTarget && elapsed == 0.0
      ensures Valid()
    {
      trans := t;
      isAnimating := false;
      isAtTarget := false;
      originalRotation := t.rotation;
      targetRotation := Multiply(t.rotation, euler(change.x, change.y, change.z));
      startRotation := t.rotation;
      endRotation := t.rotation;
      duration := PositiveOr(dur, 2.0);
      fraction := 0.0;
      elapsed := 0.0;
      speed := PositiveOr(spd, 1.0);
    }

    /** `toggleRotation`: ignored while animating; otherwise turn back to the
        original rotation from the target, or to the target otherwise. */
    method ToggleRotation()
      modifies this
      ensures Animation() == Toggle(old(Animation()), originalRotation, targetRotation)
      ensures old(Valid()) ==> Valid()
    {
      if isAnimating {
        return;
      }
      var nextRot: Quaternion;
      if isAtTarget {
        nextRot := originalRotation;
      } else {
        nextRot := targetRotation;
      }
      RotateTo(nextRot);
    }

    /** `rotateTo`: turn from the current rotation to `nextRot`. */
    method RotateTo(nextRot: Quaternion)
      modifies this
      ensures Animation() == Begin(old(Animation()), nextRot)
    {
      startRotation := trans.rotation;
      endRotation := nextRot;
      elapsed := 0.0;
      fraction := 0.0;
      isAnimating := true;
    }

    /** `nextFrame`: turn only while animating. */
    method NextFrame(dt: real, slerp: (Quaternion, Quaternion, real) -> Quaternion)
      requires Valid()
      modifies this, trans
      ensures Animation() == Frame(old(Animation()), dt * speed, duration, slerp, true)
      ensures dt >= 0.0 ==> Valid()
    {
      if isAnimating {
        Rotate(dt, slerp);
      }
      if dt >= 0.0 {
        FrameKeepsValid(old(Animation()), dt * speed, duration, slerp, true);
      }
    }

    /** `rotate`: advance the clock; past the duration show the end rotation,
        flip `isAtTarget` and stop; otherwise slerp to the fraction elapsed. */
    method Rotate(dt: real, slerp: (Quaternion, Quaternion, real) -> Quaternion)
      requires duration > 0.0
      modifies this, trans
      ensures Animation() == Advance(old(Animation()), dt * speed, duration, slerp, true)
    {
      elapsed := elapsed + dt * speed;
      var newRot: Quaternion;
      if elapsed > duration {
        newRot := endRotation;
        isAtTarget := if isAtTarget then false else true;
        isAnimating := false;
      } else {
        fraction := elapsed / duration;
        newRot := slerp(startRotation, endRotation, fraction);
      }
      trans.rotation := newRot;
    }
  }
}
