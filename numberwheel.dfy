/** A combination-lock wheel (src/numberwheel.ts): each click rolls the
    shown digit on by one stop, wrapping from `numStops` back to 1, and
    animates a fixed turn of the wheel. The host's `Quaternion.Euler` and
    `Quaternion.Slerp` are parameters; the `onValueChanged` callback is
    recorded by whether one is set and how often it has fired. */
module NumberWheels {
  import opened Math3D
  import opened Scene
  import opened Tweens

  /** The stop after `v` on a wheel of `numStops` stops. */
  function NextStop(v: int, numStops: int): int {
    if v + 1 > numStops then 1 else v + 1
  }

  /** Rolling keeps the value on the dial: the next stop of a value in
      1..numStops is again in range, and it is the value's successor modulo
      `numStops`, renumbered from 1. */
  lemma NextStopInRange(v: int, numStops: int)
    requires 1 <= v <= numStops
    ensures 1 <= NextStop(v, numStops) <= numStops
    ensures NextStop(v, numStops) == v % numStops + 1
  {
    if v < numStops {
      assert v % numStops == v;
    } else {
      assert v % numStops == 0;
    }
  }

  /** The value after `k` rolls. */
  function Rolled(v: int, numStops: int, k: nat): int
    decreases k
  {
    if k == 0 then v else NextStop(Rolled(v, numStops, k - 1), numStops)
  }

  /** Up to a full turn, `k` rolls advance the value by `k`, wrapping once
      past `numStops`. */
  lemma {:induction false} RolledAround(v: int, numStops: int, k: nat)
    requires 1 <= v <= numStops && k <= numStops
    ensures Rolled(v, numStops, k) == if v + k <= numStops then v + k else v + k - numStops
    decreases k
  {
    if k > 0 {
      RolledAround(v, numStops, k - 1);
    }
  }

  /** A full turn of `numStops` rolls shows the value it started from. */
  lemma FullTurnReturns(v: int, numStops: int)
    requires 1 <= v <= numStops
    ensures Rolled(v, numStops, numStops as nat) == v
  {
    RolledAround(v, numStops, numStops as nat);
  }

  class NumberWheel {
    const trans: Transform
    var value: int
    const numStops: int
    const anglesPerStop: Vector3
    var isAnimating: bool
    var isAtTarget: bool
    const originalRotation: Quaternion
    var startRotation: Quaternion
    var endRotation: Quaternion
    const duration: real
    var fraction: real
    var elapsed: real
    const speed: real
    var hasOnValueChanged: bool
    /** Number of times `onValueChanged` has fired. */
    var valueChangedCalls: nat

    /** The animation state the wheel's fields and its transform hold. */
    function Animation(): Tween<Quaternion>
      reads this, trans
    {
      Tween(trans.rotation, startRotation, endRotation, elapsed, fraction, isAnimating, isAtTarget)
    }

    /** The value is on the dial and the animation clock is consistent. */
    predicate Valid()
      reads this, trans
    {
      1 <= value <= numStops && speed > 0.0 && Tweens.Valid(Animation(), duration)
    }

    /** The constructor: value 5 on nine stops of -40 degrees about x, a
        duration and speed that fall back to 1 when not positive, and no
        animation. */
    constructor(t: Transform, dur: real, spd: real)
      ensures trans == t && value == 5 && numStops == 9 && anglesPerStop == Vector3(-40.0, 0.0, 0.0)
      ensures !isAnimating && !isAtTarget && elapsed == 0.0
      ensures originalRotation == t.rotation
      ensures duration == PositiveOr(dur, 1.0) && speed == PositiveOr(spd, 1.0)
      ensures !hasOnValueChanged && valueChangedCalls == 0
      ensures Valid()
    {
      trans := t;
      value := 5;
      numStops := 9;
      anglesPerStop := Vector3(-40.0, 0.0, 0.0);
      isAnimating := false;
      isAtTarget := false;
      originalRotation := t.rotation;
      startRotation := t.rotation;
      endRotation := t.rotation;
      duration := PositiveOr(dur, 1.0);
      fraction := 0.0;
      elapsed := 0.0;
      speed := PositiveOr(spd, 1.0);
      hasOnValueChanged := false;
      valueChangedCalls := 0;
    }

    /** Assigning `onValueChanged`. */
    method SetOnValueChanged()
      modifies this
      ensures hasOnValueChanged && valueChangedCalls == old(valueChangedCalls)
      ensures Animation() == old(Animation()) && value == old(value)
    {
      hasOnValueChanged := true;
    }

    /** `rollForward`: ignored while animating; otherwise step the value and
        start turning the wheel by one stop from where it is. */
    method RollForward(euler: (real, real, real) -> Quaternion)
      modifies this
      ensures old(isAnimating) ==> Animation() == old(Animation()) && value == old(value)
      ensures !old(isAnimating) ==> value == NextStop(old(value), numStops)
      ensures !old(isAnimating) ==>
                Animation() == Begin(old(Animation()),
                                     Multiply(old(trans.rotation), euler(anglesPerStop.x, anglesPerStop.y, anglesPerStop.z)))
      ensures hasOnValueChanged == old(hasOnValueChanged) && valueChangedCalls == old(valueChangedCalls)
      ensures old(Valid()) ==> Valid()
    {
      if isAnimating {
        return;
      }
      value := value + 1;
      if value > numStops {
        value := 1;
      }
      var nextRot := Multiply(trans.rotation, euler(anglesPerStop.x, anglesPerStop.y, anglesPerStop.z));
      RotateTo(nextRot);
    }

    /** `rotateTo`: animate from the current rotation to `nextRot`. */
    method RotateTo(nextRot: Quaternion)
      modifies this
      ensures Animation() == Begin(old(Animation()), nextRot)
      ensures value == old(value)
      ensures hasOnValueChanged == old(hasOnValueChanged) && valueChangedCalls == old(valueChangedCalls)
    {
      startRotation := trans.rotation;
      endRotation := nextRot;
      elapsed := 0.0;
      fraction := 0.0;
      isAnimating := true;
    }

    /** `nextFrame`: turn the wheel only while animating. */
    method NextFrame(dt: real, slerp: (Quaternion, Quaternion, real) -> Quaternion)
      requires Valid()
      modifies this, trans
      ensures Animation() == Frame(old(Animation()), dt * speed, duration, slerp, false)
      ensures value == old(value) && hasOnValueChanged == old(hasOnValueChanged)
      ensures valueChangedCalls == old(valueChangedCalls)
                + (if old(isAnimating) && !isAnimating && hasOnValueChanged then 1 else 0)
      ensures dt >= 0.0 ==> Valid()
    {
      if isAnimating {
        Rotate(dt, slerp);
      }
      if dt >= 0.0 {
        FrameKeepsValid(old(Animation()), dt * speed, duration, slerp, false);
      }
    }

    /** `rotate`: advance the clock; past the duration show the end rotation,
        stop, and fire `onValueChanged` once; otherwise slerp to the fraction
        elapsed. */
    method Rotate(dt: real, slerp: (Quaternion, Quaternion, real) -> Quaternion)
      requires duration > 0.0
      modifies this, trans
      ensures Animation() == Advance(old(Animation()), dt * speed, duration, slerp, false)
      ensures value == old(value) && hasOnValueChanged == old(hasOnValueChanged)
      ensures valueChangedCalls == old(valueChangedCalls)
                + (if old(elapsed) + dt * speed > duration && hasOnValueChanged then 1 else 0)
    {
      elapsed := elapsed + dt * speed;
      var newRot: Quaternion;
      if elapsed > duration {
        newRot := endRotation;
        isAnimating := false;
        if hasOnValueChanged {
          valueChangedCalls := valueChangedCalls + 1;
        }
      } else {
        fraction := elapsed / duration;
        newRot := slerp(startRotation, endRotation, fraction);
      }
      trans.rotation := newRot;
    }
  }
}
