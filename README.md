# mystery-dcl: collision, physics and animation core in Dafny

This project models the gameplay core of a Decentraland scene called mystery-dcl and proves properties of that model. The core has these parts:

- a small point-mass physics layer:
  - axis-aligned boxes (`AABB`);
  - segment rays with a slab intersection test (`Ray`);
  - box colliders with collision callbacks (`CubeCollider`);
  - a rigid body stepped once per frame (`RigidBody`).
- the frame-stepped animations of the clickable scene objects:
  - a sliding object (`Slidable`);
  - a rotating object (`Rotatable3`);
  - a combination-lock wheel (`NumberWheel`).
- the gallery puzzle that reads four wheels as a number (`GalleryPuzzle`);
- the pick-up, carry, drop and throw logic of portable objects (`Portable`).

Modules and files:

| module | file | models |
|---|---|---|
| `Optionals` | option.dfy | JavaScript `undefined` results, as `Option` |
| `Math3D` | vec3.dfy | the host `Vector3` arithmetic used by the core |
| `Scene` | transform.dfy | an entity's `Transform` (position and rotation) |
| `BoundingBox` | aabb.dfy | `src/aabb.ts` |
| `RayCast` | ray.dfy | `src/ray.ts` |
| `CubeColliders` | cubecollider.dfy | `src/cubecollider.ts` |
| `Physics` | rigidbody.dfy | `src/rigidbody.ts` |
| `Tweens` | tween.dfy | the animation step shared by the three animated components |
| `Slidables` | slidable.dfy | `src/slidable.ts` |
| `Rotatables` | rotatable3.dfy | `src/rotatable3.ts` |
| `NumberWheels` | numberwheel.dfy | `src/numberwheel.ts` |
| `Gallery` | gallerypuzzle.dfy | `src/gallerypuzzle.ts` |
| `Portables` | portable.dfy | `src/portable.ts` |

How the source maps onto Dafny:

- **Values.** Boxes and rays are built once and only read afterwards, so they are datatypes. Vectors are datatypes of three `real`s.
- **Classes.** Colliders, rigid bodies, animated components, the puzzle and portables update their fields in place, so each is a class. Each method states its new state.
- **The physics step.** `Physics.Body` is a rigid body's fields as a value. For each phase of `update` there is a function on it (`Moved`, `GroundBounce`, `CubeBounce`, `Solve`, `Settle`, `Step`), and the class methods are proved to perform those phases.
- **The animations.** The components share one state machine, `Tweens.Tween`. Its functions (`Begin`, `Toggle`, `Advance`, `Frame`, `Run`) carry the properties, and each component's methods are proved equal to them.
- **Statics.** The static `RigidBody.colliders` list is a `ColliderRegistry` object. The static `Portable.heldObject` is a `HeldSlot` object. Both are passed to the operations that use them.
- **Callbacks.** A callback (`collisionHandler`, `onValueChanged`, `onSolved`, `onDropped`) is represented by a flag saying whether one is set and a counter of how often it has fired.
- **Host functions.** The host's square root, `Quaternion.Euler` and `Quaternion.Slerp` are function parameters. The camera pose is an input.
- **Faults.** `bounceOffCube` would throw on an undefined face normal, because it computes `Vector3.Dot(velocity, undefined)`. The model has this outcome explicitly (`Physics.Outcome.Faulted`), and proves that a hit found by the slab test never causes it.

## Model

| member | source | states |
|---|---|---|
| BoundingBox.FromCenterSize | src/aabb.ts:11-21 | the half size is half the full size; `min`/`max` are the per-axis min/max of centre ± half size, so the box is ordered, centred on `center` and as wide as the absolute size on each axis, even for a negative size |
| BoundingBox.TestBoxCorners | test/testrunner.ts:140-146 | centre (1,1,1) and size (2,2,2) give `min` (0,0,0) and `max` (2,2,2) |
| BoundingBox.IsPointInside | src/aabb.ts:29-38 | true iff x ≥ min.x, **x** ≥ min.y (the source's test as written), z ≥ min.z, and every coordinate ≤ max; all bounds inclusive |
| BoundingBox.InsideAgreesWithContains | src/aabb.ts:31 | where x also clears `min.y`, `isPointInside` agrees with true containment in both directions, and always does when `min.y ≤ min.x` |
| BoundingBox.SlipRejectsContainedPoint | src/aabb.ts:31 | a point strictly inside a box (centre (1,2,1), size 2) is rejected by `isPointInside` |
| BoundingBox.SlipAcceptsPointBelow | src/aabb.ts:31 | (1,-5,1), far below the unit test box, passes `isPointInside` |
| BoundingBox.TestBoxContainment | test/testrunner.ts:148-166 | the five containment cases of the source's tests on the test box hold |
| BoundingBox.ClampAxis | src/aabb.ts:46-53 | one coordinate raised to `lo` then lowered to `hi`: lands in [lo, hi], unchanged when already there |
| BoundingBox.ClampPoint | src/aabb.ts:43-55 | `clampPoint` puts the point in an ordered box, leaves every in-range coordinate (and a contained point) unchanged |
| BoundingBox.ClampIdempotent | src/aabb.ts:43-55 | clamping twice is clamping once |
| BoundingBox.Distances | src/aabb.ts:69-75 | six distances in the order min.x, min.y, min.z, max.x, max.y, max.z, each the absolute distance of the point's coordinate to that face's plane |
| BoundingBox.FirstMinIndex | src/aabb.ts:77-87 | an in-range index of a least value with every earlier value strictly greater (first index wins ties) |
| BoundingBox.NearestFace | src/aabb.ts:77-87 | the face the search keeps: the first nearest face, or index 0 when no distance is below `Number.MAX_VALUE` |
| BoundingBox.NearestIndex | src/aabb.ts:77-87 | the min-search loop, from `MAX_VALUE` at index 0 with a strict `<`, returns `NearestFace` of the distances |
| BoundingBox.ProjectToFace | src/aabb.ts:88-103 | the `switch`: the face's coordinate set to the face's bound, the other two unchanged |
| BoundingBox.GetSurfacePoint | src/aabb.ts:57-106 | `getSurfacePoint` returns `SurfacePoint`: clamp when rejected, otherwise project onto the face the scan finds |
| BoundingBox.SurfacePointInside | src/aabb.ts:61-103 | an accepted point ends on the plane of the first nearest face and keeps its other two coordinates |
| BoundingBox.SurfacePointOutside | src/aabb.ts:61-65 | a rejected point is clamped, so ends inside an ordered box |
| BoundingBox.GetFaceNormal | src/aabb.ts:108-134 | undefined exactly for strictly interior points; Up iff y ≥ max.y, Forward iff not that and z ≥ max.z, Right iff neither and x ≥ max.x, Backward iff none of those and z ≤ min.z, Left iff none of those and x ≤ min.x, Down iff none of those and y ≤ min.y; every answer has unit length |
| BoundingBox.FaceNormalOnFace | src/aabb.ts:108-134 | a point on any face plane gets a normal |
| BoundingBox.GetClosestNormal | src/aabb.ts:23-27 | the face normal of the surface point: undefined exactly when the surface point is strictly interior, otherwise of unit length; `ClosestNormalDefined` says for which points it is defined |
| BoundingBox.ClosestNormalDefined | src/aabb.ts:23-27 | `getClosestNormal` is defined for every point `isPointInside` accepts and every point outside an ordered box |
| BoundingBox.SlipLeavesNoNormal | src/aabb.ts:23-38 | because of the axis slip, a point strictly inside a box gets no closest normal at all |
| RayCast.MakeRayValid | src/ray.ts:11-32 | a built ray keeps origin, end point and length, has `direction = end - origin`, `getEndpoint() = endPoint`, and a unit `normDirection` for a positive length (the zero vector back for length 0) |
| RayCast.MakeRay | src/ray.ts:11-32 | the constructor as a value; its properties (fields kept, `Valid`, unit direction) are stated by `MakeRayValid` |
| RayCast.GetEndpoint | src/ray.ts:44-47 | `origin + direction` is the end point of a built ray |
| RayCast.GetPoint | src/ray.ts:34-42 | `normDirection·t + origin`; `GetPointSpansSegment` states that it runs from the origin at 0 to the end point at the length |
| RayCast.GetPointSpansSegment | src/ray.ts:34-42 | `getPoint(0)` is the origin and `getPoint(distance)` the end point |
| RayCast.MakeRayAlongUnit | src/ray.ts:11-32 | a segment of length `d` along a unit vector `u` has length `d` and normalizes back to `u` (the unit test ray and the (1,3,1)→(1,1.5,1) ray are instances) |
| RayCast.NonZero | src/ray.ts:84-86 | the divisor substituted for a direction component is never zero and is the component itself when that is non-zero |
| RayCast.IntersectsBoxNormalized | src/ray.ts:82-122 | -1 iff `tmax < 0` or `tmin > tmax`; otherwise a value ≥ 0 in [tmin, tmax]: the entry `tmin` when it is ≥ 0 (the first hit of a ray starting outside), and the exit `tmax` only when the origin is already past the entry |
| RayCast.IntersectsBox | src/ray.ts:67-79 | the result is -1 or in [0, distance]; it is the unbounded answer whenever that is ≤ distance |
| RayCast.SlabContains | src/ray.ts:88-105 | within one slab's entry and exit, the ray's coordinate lies between the slab's two planes |
| RayCast.SlabBounds | src/ray.ts:95-105 | `tmin` is no earlier than any slab entry and `tmax` no later than any slab exit |
| RayCast.BetweenSlabsInBox | src/ray.ts:95-105 | with no zero direction component, every parameter in [tmin, tmax] gives a point inside the box |
| RayCast.HitPointInBox | src/ray.ts:82-122 | a reported hit of a ray with no zero direction component lies in the box |
| RayCast.EntryExitAreSlabEnds | src/ray.ts:95-105 | `tmin` is one of the slab entries and `tmax` one of the slab exits |
| RayCast.SlabEndOnFacePlane | src/ray.ts:88-93 | at any slab end the ray's point lies on one of the box's six face planes |
| RayCast.HitPointHasFaceNormal | src/ray.ts:82-122 | a reported hit point (no zero direction component) has a face normal |
| RayCast.RayAboveTest | test/testrunner.ts:172-178 | the falling ray from (1,3,1) hits the test box at t = 1, at (1,2,1), with normal Up |
| RayCast.RayFrontTest | test/testrunner.ts:188-218 | a ray from (1,y,-1) along +z, for any y in [0,1], hits at t = 1, at (1,y,0), with normal (0,0,-1): the front and through rays (y = 1) and the low front ray (y = 0.001) |
| RayCast.RayTooFarTest | test/testrunner.ts:220-222 | the ray from (1,1,-10) of length 9 would enter at 10 and so reports no hit |
| RayCast.RayDiagonalTest | test/testrunner.ts:168-170 | the ray from (-3,-3,0) towards (-2,-2,0) reports no hit |
| CubeColliders.CollisionNormal | src/cubecollider.ts:15-25 | undefined when disabled or `newPos` is rejected; otherwise the closest normal to the previous position |
| CubeColliders.EnteringGivesNormal | src/cubecollider.ts:19-23 | moving into an enabled box from a point outside it always yields a unit normal |
| CubeColliders.CubeCollider.constructor | src/cubecollider.ts:6-13 | the box is `AABB(center, fullSize)`, enabled, no handler |
| CubeColliders.CubeCollider.SetCollisionHandler | src/cubecollider.ts:8 | a handler is set, nothing else changes |
| CubeColliders.CubeCollider.OnCollision | src/cubecollider.ts:32-38 | the handler runs iff one is set |
| CubeColliders.CubeCollider.CheckCollisionNormal | src/cubecollider.ts:15-25 | returns `CollisionNormal`, firing `onCollision` exactly when enabled and `newPos` is inside |
| CubeColliders.CubeCollider.GetClosestPoint | src/cubecollider.ts:27-30 | the box's surface point |
| CubeColliders.CubeCollider.CheckRayCollision | src/rigidbody.ts:121 | -1 or a parameter within the ray's length (the bounded slab test of the box) |
| Physics.GravityStep | src/rigidbody.ts:85-104 | sum of forces then move: each velocity axis damped by 0.98, plus `-50·dt/mass` on y only; target = position + velocity·dt |
| Physics.GroundBounceReflects | src/rigidbody.ts:142-174 | new velocity `bounciness·(vx,-vy,vz)`; a bounce is counted iff the fall exceeds 0.0001, and otherwise the target stays on the ground |
| Physics.ReflectOffGround | src/rigidbody.ts:152-156 | reflecting about Up negates the vertical component only |
| Physics.CubeBounceReflects | src/rigidbody.ts:184-213 | at a hit point with normal `n`: one bounce counted, velocity `bounciness·reflect(v, n)`, `n` of unit length |
| Physics.CubeBounceNoFaster | src/rigidbody.ts:197-202 | with bounciness in [0,1] a cube bounce never increases the speed |
| Physics.CubeHitNeverFaults | src/rigidbody.ts:184-197 | a hit found by the slab test on a ray with no zero component always has a face normal, so the bounce completes |
| Physics.FirstHit | src/rigidbody.ts:118-130 | none iff every time is negative; otherwise the first index with a non-negative time |
| Physics.FirstHitAt | src/rigidbody.ts:118-130 | a non-negative time at `i` with only negative ones before is the first hit |
| Physics.HitTimes | src/rigidbody.ts:121 | one `checkRayCollision` result per collider, in list order |
| Physics.SolveBouncesAtMostOnce | src/rigidbody.ts:107-139 | `solveConstraints` adds at most one bounce, keeps `isStatic`, commits the target as the position, and a fault leaves the body untouched |
| Physics.StaticStaysPut | src/rigidbody.ts:64 | `update` leaves a static body as it is |
| Physics.StepKeepsBounceBelowLimit | src/rigidbody.ts:61-82 | after an update `bounceCount < bounceLimit`; it rose by at most one or was reset; a body made static stands still at ground height |
| Physics.RayLength | src/rigidbody.ts:116 | the host square root of the step's squared length is that step's length |
| Physics.SummedForces | src/rigidbody.ts:85-88 | `sumForces` on the body's state; `GravityStep` states its effect together with `Moved` |
| Physics.Moved | src/rigidbody.ts:91-104 | `move` on the body's state; `GravityStep` states the damped, accelerated velocity and the target |
| Physics.GroundBounce | src/rigidbody.ts:142-174 | `bounceOffGround` on the body's state; `GroundBounceReflects` states the reflected velocity and when a bounce counts |
| Physics.CubeBounce | src/rigidbody.ts:178-214 | `bounceOffCube` on the body's state, faulting on an undefined face normal; `CubeBounceReflects`, `CubeBounceNoFaster` and `CubeHitNeverFaults` state its properties |
| Physics.Solve | src/rigidbody.ts:107-139 | `solveConstraints` on the body's state; `SolveBouncesAtMostOnce` states its properties |
| Physics.Settle | src/rigidbody.ts:74-81 | the rest rule on the body's state; `StepKeepsBounceBelowLimit` states that a settled body stands still on the ground with no bounces |
| Physics.Step | src/rigidbody.ts:61-82 | `update` on the body's state; `StaticStaysPut` and `StepKeepsBounceBelowLimit` state its properties |
| Physics.ColliderRegistry.constructor | src/rigidbody.ts:19 | the collider list starts empty |
| Physics.ColliderRegistry.AddCollider | src/rigidbody.ts:39-42 | appends the collider at the end |
| Physics.Boxes | src/rigidbody.ts:120-124 | each collider's box, in list order |
| Physics.FirstColliderHit | src/rigidbody.ts:118-130 | the scan returns the index of the first collider whose ray test is non-negative, and none if there is none |
| Physics.RigidBody.constructor | src/rigidbody.ts:21-59 | start velocity, mass, bounciness and static flag as given, defaulting to 1, 0.7 and dynamic; zero forces and target; no bounces |
| Physics.RigidBody.SumForces | src/rigidbody.ts:85-88 | forces become gravity (0,-50,0) |
| Physics.RigidBody.Move | src/rigidbody.ts:91-104 | the state becomes `Moved`: damping before acceleration, then target = position + velocity·dt |
| Physics.RigidBody.BounceOffGround | src/rigidbody.ts:142-174 | the state becomes `GroundBounce`; at most one bounce |
| Physics.RigidBody.BounceOffCube | src/rigidbody.ts:178-214 | the state becomes `CubeBounce`; unchanged for t = -1; faulted exactly when the hit point has no face normal |
| Physics.RigidBody.SolveConstraints | src/rigidbody.ts:107-139 | the state becomes `Solve`; only the first collider hit runs its `onCollision`, once; no collider changes otherwise |
| Physics.RigidBody.Collide | src/rigidbody.ts:121-128 | bounce off the found collider's box, then its `onCollision` once unless the bounce faulted |
| Physics.RigidBody.Update | src/rigidbody.ts:61-82 | the state becomes `Step`; a completed update keeps mass ≠ 0 and `bounceCount < bounceLimit`; no collider's flags change |
| Physics.RigidBody.ComeToRest | src/rigidbody.ts:74-81 | the state becomes `Settle`: past the bounce limit or slow on every axis, grounded, stopped, static, bounces reset |
| Physics.RigidBody.Kick | src/rigidbody.ts:216-224 | velocity (-2,-50,2), dynamic, bounces reset, nothing else changes |
| Tweens.PositiveOr | src/slidable.ts:32-47 | a duration or speed argument is kept when positive and replaced by the default otherwise, so it is positive |
| Tweens.Begin | src/slidable.ts:74-82 | `moveTo`/`rotateTo`: start at the current pose, end at the target, clock and fraction reset, animating |
| Tweens.Toggle | src/slidable.ts:57-72 | ignored while animating; otherwise begin towards the original pose when at the target, else towards the target |
| Tweens.Frame | src/slidable.ts:84-91 | a frame changes nothing unless animating |
| Tweens.Advance | src/slidable.ts:93-116 | `move`/`rotate` on the animation state; `FrameKeepsValid`, `RunOutcome` and `AnimationEnds` state its properties |
| Tweens.FrameKeepsValid | src/slidable.ts:93-116 | a frame with a non-negative step keeps the clock and fraction consistent (fraction in [0,1]); an animation stops exactly when the clock passes the duration, showing the end pose; before that it shows the interpolation at `elapsed/duration` |
| Tweens.RunClock | src/slidable.ts:93-116 | over many frames, an animation still running has advanced its clock by one step per frame |
| Tweens.RunAtRest | src/slidable.ts:84-91 | once stopped, further frames change nothing |
| Tweens.RunOutcome | src/slidable.ts:99-104 | a run that has stopped shows the end pose and flipped `isAtTarget` once when the component flips it |
| Tweens.FrameBound | src/numberwheel.ts:94-104 | ⌊duration/step⌋ + 1 frames take the clock past the duration |
| Tweens.AnimationEnds | src/numberwheel.ts:94-104 | for a positive step, an animation that has just begun has stopped within `FrameBound` frames, at the end pose |
| Tweens.ToggleTwiceReturns | src/slidable.ts:57-104 | from rest at the original pose, a completed toggle reaches the target with `isAtTarget` set, and a second returns to the original with it cleared |
| Slidables.Slidable.constructor | src/slidable.ts:21-55 | target = original position + move vector; duration falls back to 2 and speed to 1 |
| Slidables.Slidable.TogglePos | src/slidable.ts:57-72 | the animation state becomes `Toggle(original, target)` |
| Slidables.Slidable.MoveTo | src/slidable.ts:74-82 | the animation state becomes `Begin(nextPos)` |
| Slidables.Slidable.NextFrame | src/slidable.ts:84-91 | the animation state becomes one `Frame` with `Lerp`, flipping `isAtTarget` at the end, and stays consistent |
| Slidables.Slidable.Move | src/slidable.ts:93-116 | the animation state becomes `Advance` with `Lerp` |
| Rotatables.Rotatable3.constructor | src/rotatable3.ts:23-60 | target rotation = original · Euler(change); duration falls back to 2 and speed to 1 |
| Rotatables.Rotatable3.ToggleRotation | src/rotatable3.ts:62-77 | the animation state becomes `Toggle(original, target)` |
| Rotatables.Rotatable3.RotateTo | src/rotatable3.ts:79-87 | the animation state becomes `Begin(nextRot)` |
| Rotatables.Rotatable3.NextFrame | src/rotatable3.ts:89-96 | the animation state becomes one `Frame` with `Slerp`, flipping `isAtTarget` at the end, and stays consistent |
| Rotatables.Rotatable3.Rotate | src/rotatable3.ts:98-121 | the animation state becomes `Advance` with `Slerp` |
| NumberWheels.NextStopInRange | src/numberwheel.ts:62-66 | a value in 1..numStops rolls to a value in range, its successor modulo `numStops` renumbered from 1 |
| NumberWheels.NextStop | src/numberwheel.ts:62-66 | the value after one roll; `NextStopInRange`, `RolledAround` and `FullTurnReturns` state its properties |
| NumberWheels.RolledAround | src/numberwheel.ts:62-66 | up to a full turn, `k` rolls add `k` and wrap once past `numStops` |
| NumberWheels.FullTurnReturns | src/numberwheel.ts:62-66 | `numStops` rolls show the starting value again |
| NumberWheels.NumberWheel.constructor | src/numberwheel.ts:5-55 | value 5 of 9 stops, turn (-40,0,0) per stop, duration and speed falling back to 1 |
| NumberWheels.NumberWheel.SetOnValueChanged | src/numberwheel.ts:22 | a handler is set, nothing else changes |
| NumberWheels.NumberWheel.RollForward | src/numberwheel.ts:57-70 | ignored while animating; otherwise the value steps with wraparound and the wheel begins turning by one stop from its current rotation; the value stays on the dial |
| NumberWheels.NumberWheel.RotateTo | src/numberwheel.ts:72-80 | the animation state becomes `Begin(nextRot)` |
| NumberWheels.NumberWheel.NextFrame | src/numberwheel.ts:82-89 | the animation state becomes one `Frame` with `Slerp` (no flip); `onValueChanged` fires once, exactly when the turn ends |
| NumberWheels.NumberWheel.Rotate | src/numberwheel.ts:91-118 | the animation state becomes `Advance`; `onValueChanged` fires iff the clock passes the duration and a handler is set |
| Gallery.TotalDigits | src/gallerypuzzle.ts:23-26 | the four digits can be read back from the total |
| Gallery.Total | src/gallerypuzzle.ts:23-26 | the four-digit reading of the wheels; `TotalDigits` and `SolvedExactlyAt4263` state its properties |
| Gallery.SolvedExactlyAt4263 | src/gallerypuzzle.ts:12-25 | with wheel values in 1..9, the total is 4263 iff the wheels read 4, 2, 6, 3 |
| Gallery.GalleryPuzzle.constructor | src/gallerypuzzle.ts:5-21 | total 0, not solved, no handler |
| Gallery.GalleryPuzzle.SetOnSolved | src/gallerypuzzle.ts:15 | a handler is set, nothing else changes |
| Gallery.GalleryPuzzle.CalcTotal | src/gallerypuzzle.ts:23-26 | total = 1000·w1 + 100·w2 + 10·w3 + w4 |
| Gallery.GalleryPuzzle.OnWheelValueChanged | src/gallerypuzzle.ts:28-41 | recompute the total; solved becomes true on the answer and is never cleared; `onSolved` fires on every match |
| Portables.DropPosition | src/portable.ts:86-87 | the camera position 1.35 lower |
| Portables.FrontPosition | src/portable.ts:132-134 | the camera position plus the forward vector, at camera height less 0.1 |
| Portables.ThrowVelocity | src/portable.ts:118-119 | forward times the throw speed with the vertical part negated |
| Portables.HeldSlot.constructor | src/portable.ts:9 | nothing is held |
| Portables.AtMostOneHeld | src/portable.ts:57-65 | in a coherent scene two held portables are the same one |
| Portables.Portable.constructor | src/portable.ts:22-42 | not held, with the given throwability and throw speed, defaulting to not throwable and 2 |
| Portables.Portable.SetOnDropped | src/portable.ts:20 | a handler is set, nothing else changes |
| Portables.Portable.PickUpOrPutDown | src/portable.ts:44-66 | held: thrown when throwable and with a body (position kept, no `onDropped`), else dropped at `DropPosition` with `onDropped` once if set; not held: the previously held one is released at `DropPosition` with its `onDropped` fired once if set, then this one is carried; keeps the scene coherent (at most one held, and it is the slot's) |
| Portables.Portable.Carry | src/portable.ts:68-79 | held and in the slot, left where it is, body made static and otherwise unchanged |
| Portables.Portable.Drop | src/portable.ts:81-96 | not held, slot empty, put at `DropPosition`, `onDropped` once if set |
| Portables.Portable.Throw | src/portable.ts:103-122 | without a body exactly a drop; with one, slot empty, body dynamic with `ThrowVelocity`, position kept, no `onDropped` |
| Portables.Portable.NextFrame | src/portable.ts:124-128 | nothing unless held; otherwise one `putInFront` step |
| Portables.Portable.PutInFront | src/portable.ts:130-143 | the position moves `dt·10` of the way towards `FrontPosition` |
| Math3D.Lerp | src/slidable.ts:108-113 | `a + (b - a)·t`, starting at `a` for t = 0 and ending at `b` for t = 1 |
| Math3D.NormalizedIsUnit | src/ray.ts:25 | dividing by the length gives a unit vector pointing the same way; the zero vector comes back as is |
| Math3D.ReflectUnitNormal | src/rigidbody.ts:197-200 | against a unit normal, `n·(-2 v·n) + v` negates the normal part, keeps the tangential part and keeps the speed |
| Math3D.DampedReflectNoFaster | src/rigidbody.ts:197-202 | a reflected velocity scaled by a factor in [0,1] is no faster |

## Left out

- Floating point: all arithmetic is over `real`, so IEEE rounding, NaN and infinity are not modelled. This includes `groundDist / fullDist` at `fullDist = 0` (src/rigidbody.ts:146), which the source computes unguarded but never uses in that case.
- Square roots: `Vector3.Distance` and `Vector3.Normalize` need one. The length is an input constrained by `Math3D.IsLengthOf`, and `RigidBody.Update` takes the host square root as a parameter satisfying `Math3D.IsSqrt`.
- `Normalize` of a zero vector is taken to return it unchanged.
- `Quaternion.Euler`, `Quaternion.Slerp` and `Vector3.rotate`: these are host library code. Euler and Slerp are parameters. The camera's forward vector (`getForwardVector`, src/portable.ts:98-101) is part of the camera input. `Quaternion.multiply` is the Hamilton product.
- `Ray.intersectsPlane` (src/ray.ts:49-65): it needs a `Plane` type that is not part of this model.
- `Ray.normalize`'s Up branch and `getPoint`'s lazy re-normalization: both are unreachable once the constructor has run.
- `CubeCollider.checkRayCollision` is not defined in the source of `CubeCollider`. It is assumed to be `ray.intersectsBox(aabb)`, without an `enabled` check.
- Mass: a body's mass is required to be non-zero, where the source would divide by zero.
- Engine wiring is not modelled: entities, components, `OnClick` handlers, `log`, `Camera.instance` and the systems that call `update` and `nextFrame` each frame.
- Portable's `logCount` counter: it only feeds logging.
- The wiring of each wheel's `onValueChanged` to `GalleryPuzzle.onWheelValueChanged` (src/game.ts:549-567): `NumberWheel` only counts its callback, and `OnWheelValueChanged` is a separate method.
- `Gallery.GalleryPuzzle.constructor` takes its four wheels as arguments, where the source assigns them after construction. `doorOpened` is kept but nothing in the core sets it.
- `Rotatable3`'s `restrictX`/`restrictY`/`restrictZ` fields: nothing reads them.
- Field aliasing: `kick` mutates the velocity vector in place, which the source may share with the caller's start vector. `Portable` looks its rigid body up on every call, where the model fixes it at construction.
- Undefined starting values: `fraction`, `startPos` and `endRotation` start undefined in the source. The model starts them at 0 and at the original pose.
- The source's tests for the unit ray (0,0,0)→Up and for `rAbove`'s normalization have no concrete lemmas. `RayCast.MakeRayAlongUnit` proves them for every unit direction and length.
- The `rBelow` test is not modelled: it reuses `rAbove`'s hit time (test/testrunner.ts:74).
- Physics.RigidBody.Update: the per-collider `onCollision` counts are stated on `SolveConstraints`, not on `Update`; `Update` only states that no collider's flags change.
- Tweens.FrameBound: the frame bound is ⌊duration/step⌋ + 1 rather than ⌈duration/step⌉ + 1; whenever the two differ this one is smaller, so the statement is stronger.
