/** The point-mass physics step (src/rigidbody.ts).

    `Body` is the value of a rigid body's fields together with the position of
    the entity's transform; the functions below say what each phase of
    `update` does to it, and the class `RigidBody` performs those phases in
    place and is proved to agree with them. The shared static collider list
    is a `ColliderRegistry` object passed to `Update`, and the host's square
    root (inside `Vector3.Distance` and `Vector3.Normalize`) is a parameter. */
module Physics {
  import opened Math3D
  import opened Optionals
  import opened BoundingBox
  import opened RayCast
  import opened CubeColliders
  import opened Scene

  /** The field defaults of every body. */
  const Gravity: Vector3 := Vector3(0.0, -50.0, 0.0)
  const Friction: real := 0.98
  const BounceLimit: nat := 12
  const GroundY: real := 0.15
  /** A fall shorter than this is not bounced forward and not counted. */
  const MinBounceDistance: real := 0.0001
  /** How far along the new velocity a body is put after hitting a cube. */
  const CubeStandOff: real := 0.04
  /** Below this speed on every axis a body comes to rest. */
  const RestSpeed: real := 0.01

  datatype Body = Body(position: Vector3, velocity: Vector3, newPosition: Vector3,
                       forces: Vector3, bounceCount: nat, isStatic: bool,
                       mass: real, bounciness: real)

  /** A phase either completes, or throws: the source dereferences an
      undefined face normal when a ray hit is not on a face of the box. */
  datatype Outcome = Stepped(body: Body) | Faulted(body: Body)

  /** `sumForces`: gravity is the only force. */
  function SummedForces(s: Body): Body {
    s.(forces := Gravity)
  }

  /** `move`: damp the velocity by friction, then add the acceleration for
      `dt`, and aim at the position the new velocity reaches after `dt`. */
  function Moved(s: Body, dt: real): Body
    requires s.mass != 0.0
  {
    var m := (1.0 / s.mass) * dt;
    var v := Add(Scale(s.velocity, Friction), Scale(s.forces, m));
    s.(velocity := v, newPosition := Add(s.position, Scale(v, dt)))
  }

  /** Under gravity a step damps every axis by friction and adds `-50 dt / mass`
      to the vertical speed only; nothing but velocity and target changes. */
  lemma GravityStep(s: Body, dt: real)
    requires s.mass != 0.0
    ensures var r := Moved(SummedForces(s), dt);
            && r.velocity.x == s.velocity.x * Friction
            && r.velocity.y == s.velocity.y * Friction - 50.0 * ((1.0 / s.mass) * dt)
            && r.velocity.z == s.velocity.z * Friction
            && r.newPosition == Add(s.position, Scale(r.velocity, dt))
            && r.position == s.position && r.bounceCount == s.bounceCount && r.isStatic == s.isStatic
  {
    var m := (1.0 / s.mass) * dt;
    assert Scale(Gravity, m) == Vector3(0.0, -50.0 * m, 0.0) by {
      ZeroTimes(m);
    }
  }

  lemma ZeroTimes(m: real)
    ensures 0.0 * m == 0.0
  {
  }

  /** `bounceOffGround`: reflect the velocity off the ground plane and scale it
      by the bounciness, put the target on the ground, and, unless the fall
      was negligible, carry it on along the new velocity for the part of the
      step left after touching down and count the bounce. */
  function GroundBounce(s: Body, dt: real): Body {
    var fullDist := Abs(s.position.y - s.newPosition.y);
    var groundDist := Abs(s.position.y - GroundY);
    var landed := s.newPosition.(y := GroundY);
    var v := Scale(Reflect(s.velocity, Up()), s.bounciness);
    if fullDist > MinBounceDistance then
      var bounceTime := (1.0 - groundDist / fullDist) * dt * Friction;
      s.(newPosition := Add(landed, Scale(v, bounceTime)), bounceCount := s.bounceCount + 1, velocity := v)
    else
      s.(newPosition := landed, velocity := v)
  }

  /** The ground bounce returns `bounciness * (vx, -vy, vz)`, counts a bounce
      exactly when the fall exceeds `MinBounceDistance`, and otherwise leaves
      the target on the ground. */
  lemma GroundBounceReflects(s: Body, dt: real)
    ensures var r := GroundBounce(s, dt);
            && r.velocity == Vector3(s.velocity.x * s.bounciness, -s.velocity.y * s.bounciness,
                                     s.velocity.z * s.bounciness)
            && (r.bounceCount == s.bounceCount + 1 <==> Abs(s.position.y - s.newPosition.y) > MinBounceDistance)
            && (r.bounceCount == s.bounceCount <==> Abs(s.position.y - s.newPosition.y) <= MinBounceDistance)
            && (Abs(s.position.y - s.newPosition.y) <= MinBounceDistance ==> r.newPosition.y == GroundY)
            && r.position == s.position && r.isStatic == s.isStatic
  {
    var v := s.velocity;
    assert Reflect(v, Up()) == Vector3(v.x, -v.y, v.z) by {
      ReflectOffGround(v);
    }
  }

  lemma ReflectOffGround(v: Vector3)
    ensures Reflect(v, Up()) == Vector3(v.x, -v.y, v.z)
  {
    assert Dot(v, Up()) == v.y;
  }

  /** `bounceOffCube`: nothing for the sentinel -1; otherwise reflect the
      velocity about the face normal at the hit point, scale it by the
      bounciness, stand the body off the hit point along it and count the
      bounce. A hit point with no face normal faults. */
  function CubeBounce(s: Body, t: real, r: Ray, b: AABB): Outcome {
    if t == -1.0 then Stepped(s)
    else
      var hit := GetPoint(r, t);
      match GetFaceNormal(b, hit)
      case None => Faulted(s)
      case Some(n) =>
        var v := Scale(Reflect(s.velocity, n), s.bounciness);
        Stepped(s.(newPosition := Add(hit, Scale(v, CubeStandOff)),
                   bounceCount := s.bounceCount + 1, velocity := v))
  }

  /** A cube bounce at a hit point with face normal `n` counts one bounce and
      leaves the velocity reflected about `n` and damped; `n` has unit length,
      so by `DampedReflectNoFaster` a bounciness in [0, 1] never speeds the
      body up, and by `ReflectNegatesNormalPart` its motion along `n` turns round. */
  lemma CubeBounceReflects(s: Body, t: real, r: Ray, b: AABB, n: Vector3)
    requires t != -1.0
    requires GetFaceNormal(b, GetPoint(r, t)) == Some(n)
    ensures CubeBounce(s, t, r, b).Stepped?
    ensures CubeBounce(s, t, r, b).body.velocity == Scale(Reflect(s.velocity, n), s.bounciness)
    ensures CubeBounce(s, t, r, b).body.bounceCount == s.bounceCount + 1
    ensures CubeBounce(s, t, r, b).body.position == s.position
    ensures Dot(n, n) == 1.0
  {
  }

  /** With a bounciness in [0, 1], no cube bounce makes the body faster. */
  lemma CubeBounceNoFaster(s: Body, t: real, r: Ray, b: AABB)
    requires 0.0 <= s.bounciness <= 1.0
    ensures var v := CubeBounce(s, t, r, b).body.velocity;
            Dot(v, v) <= Dot(s.velocity, s.velocity)
  {
    if t != -1.0 {
      var p := GetPoint(r, t);
      if GetFaceNormal(b, p).Some? {
        var n := GetFaceNormal(b, p).value;
        CubeBounceReflects(s, t, r, b, n);
        DampedReflectNoFaster(s.velocity, n, s.bounciness);
      }
    }
  }

  /** A cube hit found by the bounded slab test, on a ray with no zero
      direction component, never faults. */
  lemma CubeHitNeverFaults(s: Body, r: Ray, b: AABB)
    requires NoZeroComponent(r.normDirection) && IntersectsBox(r, b) >= 0.0
    ensures CubeBounce(s, IntersectsBox(r, b), r, b).Stepped?
  {
    HitPointHasFaceNormal(r, b);
  }

  /** The index of the first non-negative hit time, scanning from the front. */
  function FirstHit(ts: seq<real>): (k: Option<nat>)
    ensures k.None? <==> forall j :: 0 <= j < |ts| ==> ts[j] < 0.0
    ensures k.Some? ==> k.value < |ts| && ts[k.value] >= 0.0
    ensures k.Some? ==> forall j :: 0 <= j < k.value ==> ts[j] < 0.0
  {
    if |ts| == 0 then None
    else if ts[0] >= 0.0 then Some(0)
    else match FirstHit(ts[1..])
      case None => None
      case Some(k) => Some(k + 1)
  }

  /** A hit at `i` with none before it is the first hit. */
  lemma FirstHitAt(ts: seq<real>, i: nat)
    requires i < |ts| && ts[i] >= 0.0
    requires forall j :: 0 <= j < i ==> ts[j] < 0.0
    ensures FirstHit(ts) == Some(i)
  {
  }

  /** `checkRayCollision` of the ray against each box, in list order: a
      definition, whose use is stated by `FirstHit` and `FirstColliderHit`. */
  function HitTimes(r: Ray, boxes: seq<AABB>): (ts: seq<real>)
    ensures |ts| == |boxes|
    ensures forall i :: 0 <= i < |boxes| ==> ts[i] == IntersectsBox(r, boxes[i])
  {
    seq(|boxes|, i requires 0 <= i < |boxes| => IntersectsBox(r, boxes[i]))
  }

  /** The collider `solveConstraints` resolves: the first whose box the step's
      ray hits. */
  function HitIndex(s: Body, boxes: seq<AABB>, dist: real): Option<nat>
    requires IsLengthOf(dist, Sub(s.newPosition, s.position))
  {
    FirstHit(HitTimes(MakeRay(s.position, s.newPosition, dist), boxes))
  }

  /** The collision response of `solveConstraints`: resolve the first
      collider hit if there is one, otherwise bounce off the ground if the
      target is at or below it. */
  function Resolve(s: Body, dt: real, boxes: seq<AABB>, dist: real): Outcome
    requires IsLengthOf(dist, Sub(s.newPosition, s.position))
  {
    var r := MakeRay(s.position, s.newPosition, dist);
    match HitIndex(s, boxes, dist)
    case Some(i) => CubeBounce(s, HitTimes(r, boxes)[i], r, boxes[i])
    case None => if s.newPosition.y <= GroundY then Stepped(GroundBounce(s, dt)) else Stepped(s)
  }

  /** `solveConstraints`: the collision response, after which the target is
      committed as the transform's position. */
  function Solve(s: Body, dt: real, boxes: seq<AABB>, dist: real): Outcome
    requires IsLengthOf(dist, Sub(s.newPosition, s.position))
  {
    match Resolve(s, dt, boxes, dist)
    case Stepped(b) => Stepped(b.(position := b.newPosition))
    case Faulted(b) => Faulted(b)
  }

  /** `solveConstraints` counts at most one bounce, keeps `isStatic`, and
      leaves the body at its target. */
  lemma SolveBouncesAtMostOnce(s: Body, dt: real, boxes: seq<AABB>, dist: real)
    requires IsLengthOf(dist, Sub(s.newPosition, s.position))
    ensures var o := Solve(s, dt, boxes, dist);
            && s.bounceCount <= o.body.bounceCount <= s.bounceCount + 1
            && o.body.isStatic == s.isStatic
            && (o.Stepped? ==> o.body.position == o.body.newPosition)
            && (o.Faulted? ==> o.body == s)
  {
  }

  /** The rest rule at the end of `update`: after the bounce limit, or when
      slow on every axis, the body settles on the ground, stops, becomes
      static and forgets its bounces. The transform's position and the target
      are one object at this point, so both take the ground height. */
  function Settle(s: Body): Body {
    if s.bounceCount >= BounceLimit
       || (Abs(s.velocity.x) < RestSpeed && Abs(s.velocity.y) < RestSpeed && Abs(s.velocity.z) <= RestSpeed)
    then
      var grounded := s.position.(y := GroundY);
      s.(position := grounded, newPosition := grounded, velocity := Zero(), isStatic := true, bounceCount := 0)
    else s
  }

  /** One `update`: nothing for a static body, otherwise the four phases. */
  function Step(s: Body, dt: real, boxes: seq<AABB>, dist: real): Outcome
    requires s.mass != 0.0
    requires IsLengthOf(dist, Sub(Moved(SummedForces(s), dt).newPosition, s.position))
  {
    if s.isStatic then Stepped(s)
    else match Solve(Moved(SummedForces(s), dt), dt, boxes, dist)
      case Stepped(b) => Stepped(Settle(b))
      case Faulted(b) => Faulted(b)
  }

  /** A static body does not move. */
  lemma StaticStaysPut(s: Body, dt: real, boxes: seq<AABB>, dist: real)
    requires s.mass != 0.0
    requires IsLengthOf(dist, Sub(Moved(SummedForces(s), dt).newPosition, s.position))
    requires s.isStatic
    ensures Step(s, dt, boxes, dist) == Stepped(s)
  {
  }

  /** A completed step of a dynamic body raises `bounceCount` by at most one
      or resets it, ends below the limit, and a body it makes static has
      stopped on the ground. */
  lemma StepKeepsBounceBelowLimit(s: Body, dt: real, boxes: seq<AABB>, dist: real)
    requires s.mass != 0.0
    requires IsLengthOf(dist, Sub(Moved(SummedForces(s), dt).newPosition, s.position))
    requires !s.isStatic
    ensures var o := Step(s, dt, boxes, dist);
            && (o.Stepped? ==> o.body.bounceCount < BounceLimit)
            && (o.Stepped? ==> o.body.bounceCount == 0 || o.body.bounceCount <= s.bounceCount + 1)
            && (o.Stepped? && o.body.isStatic ==>
                  o.body.velocity == Zero() && o.body.position.y == GroundY && o.body.bounceCount == 0)
            && (o.Faulted? ==> o.body == Moved(SummedForces(s), dt))
  {
    var m := Moved(SummedForces(s), dt);
    SolveBouncesAtMostOnce(m, dt, boxes, dist);
  }

  /** The length of the step's ray, from the host's square root. */
  function RayLength(s: Body, dt: real, sqrt: real -> real): (len: real)
    requires s.mass != 0.0 && IsSqrt(sqrt)
    ensures IsLengthOf(len, Sub(Moved(SummedForces(s), dt).newPosition, s.position))
  {
    var d := Sub(Moved(SummedForces(s), dt).newPosition, s.position);
    DotSelfNonNegative(d);
    sqrt(Dot(d, d))
  }

  lemma DotSelfNonNegative(v: Vector3)
    ensures Dot(v, v) >= 0.0
  {
    SquareNonNegative(v.x);
    SquareNonNegative(v.y);
    SquareNonNegative(v.z);
  }

  /** The static `RigidBody.colliders` list. */
  class ColliderRegistry {
    var colliders: seq<CubeCollider>

    constructor()
      ensures colliders == []
    {
      colliders := [];
    }

    /** `addCollider`: append, keeping the scan order. */
    method AddCollider(cc: CubeCollider)
      modifies this
      ensures colliders == old(colliders) + [cc]
    {
      colliders := colliders + [cc];
    }
  }

  /** The boxes of the registered colliders, in list order: a definition used
      by `FirstColliderHit` and the `RigidBody` methods. */
  function Boxes(cs: seq<CubeCollider>): (bs: seq<AABB>)
    ensures |bs| == |cs| && forall i :: 0 <= i < |cs| ==> bs[i] == cs[i].aabb
  {
    seq(|cs|, i requires 0 <= i < |cs| => cs[i].aabb)
  }

  /** Whether `c` is the collider at the index `hit`. */
  predicate IsStruck(cs: seq<CubeCollider>, hit: Option<nat>, c: CubeCollider) {
    hit.Some? && hit.value < |cs| && cs[hit.value] == c
  }

  /** The collider loop of `solveConstraints`, which stops at the first
      collider whose `checkRayCollision` is not negative. */
  method FirstColliderHit(cs: seq<CubeCollider>, r: Ray) returns (hit: Option<nat>)
    ensures hit == FirstHit(HitTimes(r, Boxes(cs)))
  {
    ghost var ts := HitTimes(r, Boxes(cs));
    hit := None;
    var i := 0;
    while i < |cs|
      invariant 0 <= i <= |cs|
      invariant forall j :: 0 <= j < i ==> ts[j] < 0.0
    {
      var t := cs[i].CheckRayCollision(r);
      if t >= 0.0 {
        FirstHitAt(ts, i);
        hit := Some(i);
        return;
      }
      i := i + 1;
    }
  }

  class RigidBody {
    const trans: Transform
    var velocity: Vector3
    var forces: Vector3
    var newPosition: Vector3
    var bounceCount: nat
    var isStatic: bool
    var mass: real
    var bounciness: real

    /** A usable mass, and fewer bounces than the limit. */
    predicate Valid()
      reads this
    {
      mass != 0.0 && bounceCount < BounceLimit
    }

    function State(): Body
      reads this, trans
    {
      Body(trans.position, velocity, newPosition, forces, bounceCount, isStatic, mass, bounciness)
    }

    /** The constructor: the given start velocity, mass, bounciness and static
        flag (by default 1, 0.7 and dynamic); no forces, no bounces. */
    constructor(t: Transform, startVelocity: Vector3, m: real := 1.0, bounce: real := 0.7, startStatic: bool := false)
      requires m != 0.0
      ensures trans == t && velocity == startVelocity && mass == m && bounciness == bounce
      ensures isStatic == startStatic && forces == Zero() && newPosition == Zero() && bounceCount == 0
      ensures Valid()
    {
      trans := t;
      velocity := startVelocity;
      forces := Zero();
      newPosition := Zero();
      bounceCount := 0;
      isStatic := startStatic;
      mass := m;
      bounciness := bounce;
    }

    method SumForces()
      modifies this
      ensures State() == SummedForces(old(State()))
    {
      forces := Gravity;
    }

    method Move(dt: real)
      requires mass != 0.0
      modifies this
      ensures State() == Moved(old(State()), dt)
    {
      ghost var s0 := State();
      var m := (1.0 / mass) * dt;
      var acceleration := Scale(forces, m);
      velocity := Add(Scale(velocity, Friction), acceleration);
      assert velocity == Moved(s0, dt).velocity;
      newPosition := Add(trans.position, Scale(velocity, dt));
      assert newPosition == Moved(s0, dt).newPosition;
    }

    method BounceOffGround(dt: real)
      modifies this
      ensures State() == GroundBounce(old(State()), dt)
      ensures old(bounceCount) <= bounceCount <= old(bounceCount) + 1 && mass == old(mass)
    {
      var fullDist := Abs(trans.position.y - newPosition.y);
      var groundDist := Abs(trans.position.y - GroundY);
      newPosition := newPosition.(y := GroundY);
      var projection := -2.0 * Dot(velocity, Up());
      var newVel := Scale(Up(), projection);
      newVel := Add(newVel, velocity);
      newVel := Scale(newVel, bounciness);
      ReflectOffGround(velocity);
      assert newVel == Scale(Reflect(velocity, Up()), bounciness);
      if fullDist > MinBounceDistance {
        var bouncePct := 1.0 - groundDist / fullDist;
        var bounceTime := bouncePct * dt * Friction;
        newPosition := Add(newPosition, Scale(newVel, bounceTime));
        bounceCount := bounceCount + 1;
      }
      velocity := newVel;
    }

    /** Returns true where the source would throw on an undefined normal; the
        fields are then untouched. */
    method BounceOffCube(dt: real, t: real, ray: Ray, aabb: AABB) returns (faulted: bool)
      modifies this
      ensures faulted <==> CubeBounce(old(State()), t, ray, aabb).Faulted?
      ensures State() == CubeBounce(old(State()), t, ray, aabb).body
      ensures old(bounceCount) <= bounceCount <= old(bounceCount) + 1 && mass == old(mass)
    {
      faulted := false;
      if t == -1.0 {
        return;
      }
      var hitPoint := GetPoint(ray, t);
      var faceNormal := GetFaceNormal(aabb, hitPoint);
      if faceNormal.None? {
        faulted := true;
        return;
      }
      var n := faceNormal.value;
      var projection := -2.0 * Dot(velocity, n);
      var newVel := Scale(n, projection);
      newVel := Add(newVel, velocity);
      newVel := Scale(newVel, bounciness);
      newPosition := Add(hitPoint, Scale(newVel, CubeStandOff));
      bounceCount := bounceCount + 1;
      velocity := newVel;
    }

    /** `solveConstraints`, given the length of the ray from the position to
        the target. Only the collider resolved has its `onCollision` run. */
    method SolveConstraints(dt: real, cs: seq<CubeCollider>, dist: real) returns (faulted: bool)
      requires IsLengthOf(dist, Sub(newPosition, trans.position))
      modifies this, trans, cs
      ensures var o := Solve(old(State()), dt, Boxes(cs), dist);
              faulted == o.Faulted? && State() == o.body
      ensures var hit := HitIndex(old(State()), Boxes(cs), dist);
              forall c :: c in cs ==>
                && c.collisions == old(c.collisions) + (if !faulted && IsStruck(cs, hit, c) then 1 else 0)
                && c.handlerCalls == old(c.handlerCalls)
                     + (if !faulted && IsStruck(cs, hit, c) && c.hasHandler then 1 else 0)
                && c.enabled == old(c.enabled) && c.hasHandler == old(c.hasHandler)
      ensures old(bounceCount) <= bounceCount <= old(bounceCount) + 1 && mass == old(mass)
    {
      ghost var s0 := State();
      var r1 := MakeRay(trans.position, newPosition, dist);
      var hit := FirstColliderHit(cs, r1);
      var collided := false;
      faulted := false;
      if hit.Some? {
        faulted := Collide(dt, cs[hit.value], r1);
        if faulted {
          return;
        }
        collided := true;
      }
      if !collided && newPosition.y <= GroundY {
        BounceOffGround(dt);
      }
      trans.position := newPosition;
    }

    /** The response to the collider found: bounce off its box, then run its
        `onCollision`, which the fault of an undefined normal skips. */
    method Collide(dt: real, c: CubeCollider, r: Ray) returns (faulted: bool)
      modifies this, c
      ensures faulted <==> CubeBounce(old(State()), c.CheckRayCollision(r), r, c.aabb).Faulted?
      ensures State() == CubeBounce(old(State()), c.CheckRayCollision(r), r, c.aabb).body
      ensures old(bounceCount) <= bounceCount <= old(bounceCount) + 1 && mass == old(mass)
      ensures c.collisions == old(c.collisions) + (if faulted then 0 else 1)
      ensures c.handlerCalls == old(c.handlerCalls) + (if !faulted && c.hasHandler then 1 else 0)
      ensures c.enabled == old(c.enabled) && c.hasHandler == old(c.hasHandler)
    {
      faulted := BounceOffCube(dt, c.CheckRayCollision(r), r, c.aabb);
      if !faulted {
        c.OnCollision();
      }
    }

    /** `update`: a static body is left alone; otherwise sum the forces, move,
        solve the constraints and apply the rest rule. The step's ray length
        comes from the host square root `sqrt`. */
    method Update(dt: real, registry: ColliderRegistry, sqrt: real -> real) returns (faulted: bool)
      requires Valid() && IsSqrt(sqrt)
      modifies this, trans, registry.colliders
      ensures var o := Step(old(State()), dt, Boxes(registry.colliders), RayLength(old(State()), dt, sqrt));
              faulted == o.Faulted? && State() == o.body
      ensures !faulted ==> Valid()
      ensures forall c :: c in registry.colliders ==> c.enabled == old(c.enabled) && c.hasHandler == old(c.hasHandler)
    {
      faulted := false;
      if isStatic {
        return;
      }
      ghost var s0 := State();
      SumForces();
      Move(dt);
      ghost var m := State();
      var d := Sub(newPosition, trans.position);
      var dist := sqrt(Dot(d, d));
      assert dist == RayLength(s0, dt, sqrt);
      faulted := SolveConstraints(dt, registry.colliders, dist);
      if faulted {
        return;
      }
      ComeToRest();
    }

    /** The rest rule at the end of `update`. The source writes the ground
        height into the transform's position, which the target aliases. */
    method ComeToRest()
      modifies this, trans
      ensures State() == Settle(old(State()))
      ensures mass == old(mass) && (old(bounceCount) >= BounceLimit ==> bounceCount == 0)
      ensures bounceCount == 0 || bounceCount == old(bounceCount)
    {
      if bounceCount >= BounceLimit
         || (Abs(velocity.x) < RestSpeed && Abs(velocity.y) < RestSpeed && Abs(velocity.z) <= RestSpeed)
      {
        trans.position := trans.position.(y := GroundY);
        newPosition := trans.position;
        velocity := Zero();
        isStatic := true;
        bounceCount := 0;
      }
    }

    /** `kick`: throw the body down and sideways and make it dynamic again. */
    method Kick()
      modifies this
      ensures velocity == Vector3(-2.0, -50.0, 2.0) && !isStatic && bounceCount == 0
      ensures forces == old(forces) && newPosition == old(newPosition)
      ensures mass == old(mass) && bounciness == old(bounciness)
    {
      velocity := velocity.(y := -50.0);
      velocity := velocity.(x := -2.0);
      velocity := velocity.(z := 2.0);
      isStatic := false;
      bounceCount := 0;
    }
  }
}
