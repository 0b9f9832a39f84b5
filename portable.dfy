/** Objects the avatar can pick up, carry, drop and throw (src/portable.ts).

    The static `Portable.heldObject` is a `HeldSlot` object passed to each
    operation, and the camera is an input: its position and its forward
    vector (`Vector3.Forward()` rotated by the camera's rotation). An
    object's optional rigid body is the `RigidBody` component of the same
    entity, fixed when the object is built. */
module Portables {
  import opened Math3D
  import opened Scene
  import opened Physics

  datatype Camera = Camera(position: Vector3, forward: Vector3)

  /** How far below the camera a dropped object lands. */
  const DropHeight: real := 1.35
  /** How far below the camera a carried object is held. */
  const CarryHeight: real := 0.1
  const LerpSpeed: real := 10.0

  /** Where `drop` puts an object: under the camera by `DropHeight`. */
  function DropPosition(cam: Camera): (p: Vector3)
    ensures p.x == cam.position.x && p.z == cam.position.z && p.y == cam.position.y - DropHeight
  {
    cam.position.(y := cam.position.y - DropHeight)
  }

  /** Where `putInFront` heads: one forward vector in front of the camera, at
      the camera's height less `CarryHeight`. */
  function FrontPosition(cam: Camera): (p: Vector3)
    ensures p.x == cam.position.x + cam.forward.x && p.z == cam.position.z + cam.forward.z
    ensures p.y == cam.position.y - CarryHeight
  {
    Add(cam.position, cam.forward).(y := cam.position.y - CarryHeight)
  }

  /** The launch velocity of `throw`: forward times the throw speed, with the
      vertical part negated. */
  function ThrowVelocity(cam: Camera, throwVel: real): (v: Vector3)
    ensures v.x == cam.forward.x * throwVel && v.y == -(cam.forward.y * throwVel)
    ensures v.z == cam.forward.z * throwVel
  {
    var v := Scale(cam.forward, throwVel);
    v.(y := -v.y)
  }

  /** The static `Portable.heldObject`. */
  class HeldSlot {
    var heldObject: Portable?

    constructor()
      ensures heldObject == null
    {
      heldObject := null;
    }
  }

  /** The transform of the held object, if any: `pickUpOrPutDown` may move it. */
  function HeldTransform(slot: HeldSlot): set<Transform>
    reads slot
  {
    if slot.heldObject == null then {} else {slot.heldObject.trans}
  }

  /** The slot and the objects `ps` agree: the slot's object, if any, is one
      of them and is held, and no other of them is held. */
  predicate Coherent(slot: HeldSlot, ps: set<Portable>)
    reads slot, ps
  {
    && (slot.heldObject != null ==> slot.heldObject in ps && slot.heldObject.isHeld)
    && (forall p :: p in ps && p.isHeld ==> p == slot.heldObject)
  }

  /** In a coherent scene at most one object is held. */
  lemma AtMostOneHeld(slot: HeldSlot, ps: set<Portable>, p: Portable, q: Portable)
    requires Coherent(slot, ps) && p in ps && q in ps && p.isHeld && q.isHeld
    ensures p == q
  {
  }

  class Portable {
    const trans: Transform
    const body: RigidBody?
    var isHeld: bool
    const isThrowable: bool
    const throwVel: real
    var hasOnDropped: bool
    /** Number of times `onDropped` has fired. */
    var droppedCalls: nat

    /** The constructor: not held, no `onDropped` handler; by default not
        throwable, with a throw speed of 2. */
    constructor(t: Transform, b: RigidBody?, throwable: bool := false, velocity: real := 2.0)
      ensures trans == t && body == b && isThrowable == throwable && throwVel == velocity
      ensures !isHeld && !hasOnDropped && droppedCalls == 0
    {
      trans := t;
      body := b;
      isHeld := false;
      isThrowable := throwable;
      throwVel := velocity;
      hasOnDropped := false;
      droppedCalls := 0;
    }

    /** Assigning `onDropped`. */
    method SetOnDropped()
      modifies this
      ensures hasOnDropped && droppedCalls == old(droppedCalls) && isHeld == old(isHeld)
    {
      hasOnDropped := true;
    }

    /** `pickUpOrPutDown`: a held object is thrown when throwable (or dropped
        if it has no body to throw), otherwise dropped; an object not held is
        carried, after the object held until then, if any, is dropped. */
    method PickUpOrPutDown(slot: HeldSlot, cam: Camera, ghost ps: set<Portable>)
      modifies this, trans, slot, body, slot.heldObject, HeldTransform(slot)
      ensures old(isHeld) ==> !isHeld && slot.heldObject == null
      ensures old(isHeld) && isThrowable && body != null ==>
                && body.State() == old(body.State()).(isStatic := false, velocity := ThrowVelocity(cam, throwVel))
                && trans.position == old(trans.position) && droppedCalls == old(droppedCalls)
      ensures old(isHeld) && !(isThrowable && body != null) ==>
                && trans.position == DropPosition(cam)
                && droppedCalls == old(droppedCalls) + (if hasOnDropped then 1 else 0)
      ensures !old(isHeld) ==> isHeld && slot.heldObject == this && (body != null ==> body.isStatic)
      ensures !old(isHeld) && old(slot.heldObject) != null && old(slot.heldObject) != this ==>
                && !old(slot.heldObject).isHeld
                && old(slot.heldObject).droppedCalls
                   == old(slot.heldObject.droppedCalls) + (if old(slot.heldObject.hasOnDropped) then 1 else 0)
                && old(slot.heldObject).trans.position == DropPosition(cam)
      ensures !old(isHeld) && (old(slot.heldObject) == null || old(slot.heldObject).trans != trans) ==>
                trans.position == old(trans.position)
      ensures old(Coherent(slot, ps)) && this in ps ==> Coherent(slot, ps)
    {
      if isHeld {
        if isThrowable {
          Throw(slot, cam);
        } else {
          Drop(slot, cam);
        }
      } else {
        if slot.heldObject != null {
          slot.heldObject.Drop(slot, cam);
        }
        Carry(slot, cam);
      }
    }

    /** `carry`: hold this object where it is (`putInFront` with no time
        passed leaves it in place) and switch its body off. */
    method Carry(slot: HeldSlot, cam: Camera)
      modifies this, trans, slot, body
      ensures isHeld && slot.heldObject == this
      ensures trans.position == old(trans.position)
      ensures body != null ==> body.State() == old(body.State()).(isStatic := true)
      ensures droppedCalls == old(droppedCalls) && hasOnDropped == old(hasOnDropped)
    {
      PutInFront(0.0, cam);
      slot.heldObject := this;
      isHeld := true;
      if body != null {
        body.isStatic := true;
      }
    }

    /** `drop`: release the object at the avatar's feet and fire `onDropped`. */
    method Drop(slot: HeldSlot, cam: Camera)
      modifies this, trans, slot
      ensures !isHeld && slot.heldObject == null
      ensures trans.position == DropPosition(cam) && trans.rotation == old(trans.rotation)
      ensures droppedCalls == old(droppedCalls) + (if hasOnDropped then 1 else 0)
      ensures hasOnDropped == old(hasOnDropped)
    {
      isHeld := false;
      var dropPos := cam.position;
      dropPos := dropPos.(y := dropPos.y - DropHeight);
      slot.heldObject := null;
      trans.position := dropPos;
      if hasOnDropped {
        droppedCalls := droppedCalls + 1;
      }
    }

    /** `throw`: without a body, a drop; with one, hand the object to physics
        with the throw velocity, leaving it where it is and firing nothing. */
    method Throw(slot: HeldSlot, cam: Camera)
      modifies this, trans, slot, body
      ensures !isHeld && slot.heldObject == null && hasOnDropped == old(hasOnDropped)
      ensures body == null ==> trans.position == DropPosition(cam)
                               && droppedCalls == old(droppedCalls) + (if hasOnDropped then 1 else 0)
      ensures body != null ==>
                && body.State() == old(body.State()).(isStatic := false, velocity := ThrowVelocity(cam, throwVel))
                && trans.position == old(trans.position) && droppedCalls == old(droppedCalls)
    {
      isHeld := false;
      if body == null {
        Drop(slot, cam);
        return;
      }
      body.isStatic := false;
      slot.heldObject := null;
      var vel := Scale(cam.forward, throwVel);
      vel := vel.(y := -vel.y);
      body.velocity := vel;
    }

    /** `nextFrame`: a held object follows the camera. */
    method NextFrame(dt: real, cam: Camera)
      modifies trans
      ensures !isHeld ==> trans.position == old(trans.position)
      ensures isHeld ==> trans.position == Lerp(old(trans.position), FrontPosition(cam), dt * LerpSpeed)
    {
      if !isHeld {
        return;
      }
      PutInFront(dt, cam);
    }

    /** `putInFront`: move a `dt * LerpSpeed` part of the way to the spot in
        front of the camera. */
    method PutInFront(dt: real, cam: Camera)
      modifies trans
      ensures trans.position == Lerp(old(trans.position), FrontPosition(cam), dt * LerpSpeed)
      ensures trans.rotation == old(trans.rotation)
    {
      var newPos := Add(cam.position, cam.forward);
      newPos := newPos.(y := cam.position.y - CarryHeight);
      trans.position := Lerp(trans.position, newPos, dt * LerpSpeed);
    }
  }
}
