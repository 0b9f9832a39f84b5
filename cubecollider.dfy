/** Box-shaped colliders (src/cubecollider.ts).

    A collider owns a box fixed at construction, an `enabled` flag and an
    optional collision handler. A handler is a foreign function, so the model
    records only whether one is set and how many times it has been invoked;
    `collisions` counts the calls of `onCollision` itself, which is what the
    scene code observes when it replaces `onCollision` on an instance. */
module CubeColliders {
  import opened Math3D
  import opened Optionals
  import opened BoundingBox
  import opened RayCast

  /** The answer of `checkCollisionNormal`: nothing unless the collider is
      enabled and the new position passes `isPointInside`, in which case the
      normal of the box closest to the previous position. This is the
      definition; what it guarantees is stated by `EnteringGivesNormal`. */
  function CollisionNormal(enabled: bool, b: AABB, newPos: Vector3, previousPos: Vector3): (n: Option<Vector3>)
    ensures !enabled || !IsPointInside(b, newPos) ==> n == None
    ensures enabled && IsPointInside(b, newPos) ==> n == GetClosestNormal(b, previousPos)
  {
    if enabled && IsPointInside(b, newPos) then GetClosestNormal(b, previousPos) else None
  }

  /** A body that moves into an enabled, ordered box from a point truly outside
      it always gets a normal back, and that normal has unit length. */
  lemma EnteringGivesNormal(b: AABB, newPos: Vector3, previousPos: Vector3)
    requires Ordered(b) && IsPointInside(b, newPos) && !Contains(b, previousPos)
    ensures CollisionNormal(true, b, newPos, previousPos).Some?
    ensures Dot(CollisionNormal(true, b, newPos, previousPos).value,
                CollisionNormal(true, b, newPos, previousPos).value) == 1.0
  {
    ClosestNormalDefined(b, previousPos);
  }

  class CubeCollider {
    const aabb: AABB
    var enabled: bool
    var hasHandler: bool
    /** Number of times `onCollision` has run. */
    var collisions: nat
    /** Number of times the collision handler has been invoked. */
    var handlerCalls: nat

    constructor(center: Vector3, fullSize: Vector3)
      ensures aabb == FromCenterSize(center, fullSize)
      ensures enabled && !hasHandler && collisions == 0 && handlerCalls == 0
    {
      aabb := FromCenterSize(center, fullSize);
      enabled := true;
      hasHandler := false;
      collisions := 0;
      handlerCalls := 0;
    }

    /** Assigning `collisionHandler`. */
    method SetCollisionHandler()
      modifies this
      ensures hasHandler
      ensures enabled == old(enabled) && collisions == old(collisions) && handlerCalls == old(handlerCalls)
    {
      hasHandler := true;
    }

    /** `onCollision`: invoke the handler when one is set, otherwise nothing. */
    method OnCollision()
      modifies this
      ensures collisions == old(collisions) + 1
      ensures handlerCalls == old(handlerCalls) + (if hasHandler then 1 else 0)
      ensures enabled == old(enabled) && hasHandler == old(hasHandler)
    {
      collisions := collisions + 1;
      if hasHandler {
        handlerCalls := handlerCalls + 1;
      }
    }

    /** `checkCollisionNormal`: when enabled and `newPos` is inside, fire
        `onCollision` and return the normal closest to `previousPos`; otherwise
        return nothing and fire nothing. */
    method CheckCollisionNormal(newPos: Vector3, previousPos: Vector3) returns (normal: Option<Vector3>)
      modifies this
      ensures normal == CollisionNormal(old(enabled), aabb, newPos, previousPos)
      ensures var fired := enabled && IsPointInside(aabb, newPos);
              && collisions == old(collisions) + (if fired then 1 else 0)
              && handlerCalls == old(handlerCalls) + (if fired && hasHandler then 1 else 0)
      ensures enabled == old(enabled) && hasHandler == old(hasHandler)
    {
      if enabled && IsPointInside(aabb, newPos) {
        OnCollision();
        normal := GetClosestNormal(aabb, previousPos);
      } else {
        normal := None;
      }
    }

    /** `getClosestPoint`: the box's surface point for `point`. */
    method GetClosestPoint(point: Vector3) returns (p: Vector3)
      ensures p == SurfacePoint(aabb, point)
    {
      p := GetSurfacePoint(aabb, point);
    }

    /** `checkRayCollision`, called by the physics step but not defined in
        src/cubecollider.ts: assumed to be the bounded slab test of the ray
        against this collider's box, regardless of `enabled`. */
    function CheckRayCollision(r: Ray): (t: real)
      ensures t == -1.0 || 0.0 <= t <= r.distance
    {
      IntersectsBox(r, aabb)
    }
  }
}
