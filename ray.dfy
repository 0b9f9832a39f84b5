/** Segment rays and the slab test against a box (src/ray.ts).

    A ray is built from an origin and an end point, and is only ever read
    afterwards, so it is a value. Its length comes from the host's square root
    and is therefore an argument of `MakeRay`, constrained by `IsLengthOf`. */
module RayCast {
  import opened Math3D
  import opened BoundingBox
  import opened Optionals

  datatype Ray = Ray(origin: Vector3, endPoint: Vector3, direction: Vector3,
                     distance: real, normDirection: Vector3)

  /** The relations the constructor establishes between the fields. */
  predicate Valid(r: Ray) {
    && r.direction == Sub(r.endPoint, r.origin)
    && IsLengthOf(r.distance, r.direction)
    && r.normDirection == Normalized(r.direction, r.distance)
  }

  /** The constructor (which also runs `normalize`): `dist` is what the host's
      `Vector3.Distance(origin, endPoint)` returns. */
  function MakeRay(origin: Vector3, endPoint: Vector3, dist: real): Ray
    requires IsLengthOf(dist, Sub(endPoint, origin))
  {
    var direction := Sub(endPoint, origin);
    Ray(origin, endPoint, direction, dist, Normalized(direction, dist))
  }

  /** A constructed ray keeps its end points and length, satisfies `Valid`,
      reports its end point back, and has a unit direction unless its end
      points coincide. */
  lemma MakeRayValid(origin: Vector3, endPoint: Vector3, dist: real)
    requires IsLengthOf(dist, Sub(endPoint, origin))
    ensures var r := MakeRay(origin, endPoint, dist);
            && Valid(r) && r.origin == origin && r.endPoint == endPoint && r.distance == dist
            && GetEndpoint(r) == endPoint
            && (dist > 0.0 ==> Dot(r.normDirection, r.normDirection) == 1.0)
            && (dist == 0.0 ==> r.normDirection == r.direction)
  {
    NormalizedIsUnit(Sub(endPoint, origin), dist);
  }

  /** `getPoint(t)`: `normDirection * t + origin`. */
  function GetPoint(r: Ray, t: real): Vector3 {
    Add(Scale(r.normDirection, t), r.origin)
  }

  /** `getEndpoint()`: `origin + direction`. */
  function GetEndpoint(r: Ray): (p: Vector3)
    ensures Valid(r) ==> p == r.endPoint
  {
    Add(r.origin, r.direction)
  }

  /** A ray of positive length walks from its origin (at 0) to its end point
      (at its length). */
  lemma GetPointSpansSegment(r: Ray)
    requires Valid(r)
    ensures GetPoint(r, 0.0) == r.origin
    ensures r.distance > 0.0 ==> GetPoint(r, r.distance) == r.endPoint
  {
    NormalizedIsUnit(r.direction, r.distance);
  }

  /** The value substituted for a zero direction component before dividing. */
  const Epsilon: real := 0.0001

  function NonZero(c: real): (r: real)
    ensures r != 0.0
    ensures c != 0.0 ==> r == c
  {
    if c == 0.0 then Epsilon else c
  }

  /** The entry and exit parameters of one slab, for origin coordinate `o`
      and direction component `n`. */
  function SlabNear(o: real, n: real, lo: real, hi: real): real {
    Min((lo - o) / NonZero(n), (hi - o) / NonZero(n))
  }

  function SlabFar(o: real, n: real, lo: real, hi: real): real {
    Max((lo - o) / NonZero(n), (hi - o) / NonZero(n))
  }

  /** `tmin`: the latest of the three slab entries. */
  function EntryTime(r: Ray, b: AABB): real {
    Max(Max(SlabNear(r.origin.x, r.normDirection.x, b.min.x, b.max.x),
            SlabNear(r.origin.y, r.normDirection.y, b.min.y, b.max.y)),
        SlabNear(r.origin.z, r.normDirection.z, b.min.z, b.max.z))
  }

  /** `tmax`: the earliest of the three slab exits. */
  function ExitTime(r: Ray, b: AABB): real {
    Min(Min(SlabFar(r.origin.x, r.normDirection.x, b.min.x, b.max.x),
            SlabFar(r.origin.y, r.normDirection.y, b.min.y, b.max.y)),
        SlabFar(r.origin.z, r.normDirection.z, b.min.z, b.max.z))
  }

  /** `intersectsBoxNormalized`: -1 when the box is behind the ray or the
      slabs do not overlap; otherwise the entry parameter, or the exit
      parameter when the origin is already past the entry. */
  function IntersectsBoxNormalized(r: Ray, b: AABB): (t: real)
    ensures t == -1.0 <==> ExitTime(r, b) < 0.0 || EntryTime(r, b) > ExitTime(r, b)
    ensures t != -1.0 ==> 0.0 <= t && EntryTime(r, b) <= t <= ExitTime(r, b)
    ensures t != -1.0 ==> t == (if EntryTime(r, b) < 0.0 then ExitTime(r, b) else EntryTime(r, b))
  {
    var tmin := EntryTime(r, b);
    var tmax := ExitTime(r, b);
    if tmax < 0.0 then -1.0
    else if tmin > tmax then -1.0
    else if tmin < 0.0 then tmax
    else tmin
  }

  /** `intersectsBox`: the unbounded answer when it lies within the segment,
      otherwise -1. */
  function IntersectsBox(r: Ray, b: AABB): (t: real)
    ensures t == -1.0 || 0.0 <= t <= r.distance
    ensures t != -1.0 ==> t == IntersectsBoxNormalized(r, b)
    ensures IntersectsBoxNormalized(r, b) <= r.distance ==> t == IntersectsBoxNormalized(r, b)
  {
    var t := IntersectsBoxNormalized(r, b);
    if t <= r.distance then t else -1.0
  }

  predicate NoZeroComponent(v: Vector3) {
    v.x != 0.0 && v.y != 0.0 && v.z != 0.0
  }

  lemma MulMonotone(a: real, c: real, n: real)
    requires a <= c && n >= 0.0
    ensures a * n <= c * n
  {
    assert (c - a) * n >= 0.0;
  }

  /** Within one slab the ray's coordinate stays between the slab's planes. */
  lemma SlabContains(o: real, n: real, lo: real, hi: real, t: real)
    requires n != 0.0 && lo <= hi
    requires SlabNear(o, n, lo, hi) <= t <= SlabFar(o, n, lo, hi)
    ensures lo <= n * t + o <= hi
  {
    if n > 0.0 {
      SlabContainsRising(o, n, lo, hi, t);
    } else {
      SlabContainsFalling(o, n, lo, hi, t);
    }
  }

  lemma SlabContainsRising(o: real, n: real, lo: real, hi: real, t: real)
    requires n > 0.0 && lo <= hi
    requires SlabNear(o, n, lo, hi) <= t <= SlabFar(o, n, lo, hi)
    ensures lo <= n * t + o <= hi
  {
    var a := (lo - o) / n;
    var c := (hi - o) / n;
    assert a * n == lo - o;
    assert c * n == hi - o;
    assert NonZero(n) == n;
    MulMonotone(lo - o, hi - o, 1.0 / n);
    assert a <= c;
    assert SlabNear(o, n, lo, hi) == a && SlabFar(o, n, lo, hi) == c;
    MulMonotone(a, t, n);
    assert lo - o <= t * n;
    MulMonotone(t, c, n);
    assert t * n <= hi - o;
  }

  lemma SlabContainsFalling(o: real, n: real, lo: real, hi: real, t: real)
    requires n < 0.0 && lo <= hi
    requires SlabNear(o, n, lo, hi) <= t <= SlabFar(o, n, lo, hi)
    ensures lo <= n * t + o <= hi
  {
    var a := (lo - o) / n;
    var c := (hi - o) / n;
    assert a * n == lo - o;
    assert c * n == hi - o;
    assert NonZero(n) == n;
    MulMonotone(lo - o, hi - o, -1.0 / n);
    assert c <= a;
    assert SlabNear(o, n, lo, hi) == c && SlabFar(o, n, lo, hi) == a;
    MulMonotone(c, t, -n);
    MulMonotone(t, a, -n);
    assert c * -n <= t * -n <= a * -n;
    assert lo - o <= t * n <= hi - o;
  }

  /** With no zero direction component, any parameter between the entry and
      the exit places the ray's point inside the box on every axis. */
  lemma BetweenSlabsInBox(r: Ray, b: AABB, t: real)
    requires Ordered(b) && NoZeroComponent(r.normDirection)
    requires EntryTime(r, b) <= t <= ExitTime(r, b)
    ensures Contains(b, GetPoint(r, t))
  {
    BetweenSlabsOnAxes(r, b, t);
    PointCoordinates(r, t);
  }

  lemma PointCoordinates(r: Ray, t: real)
    ensures GetPoint(r, t).x == r.normDirection.x * t + r.origin.x
    ensures GetPoint(r, t).y == r.normDirection.y * t + r.origin.y
    ensures GetPoint(r, t).z == r.normDirection.z * t + r.origin.z
  {
  }

  lemma BetweenSlabsOnAxes(r: Ray, b: AABB, t: real)
    requires Ordered(b) && NoZeroComponent(r.normDirection)
    requires EntryTime(r, b) <= t <= ExitTime(r, b)
    ensures b.min.x <= r.normDirection.x * t + r.origin.x <= b.max.x
    ensures b.min.y <= r.normDirection.y * t + r.origin.y <= b.max.y
    ensures b.min.z <= r.normDirection.z * t + r.origin.z <= b.max.z
  {
    BetweenSlabsX(r, b, t);
    BetweenSlabsY(r, b, t);
    BetweenSlabsZ(r, b, t);
  }

  lemma BetweenSlabsX(r: Ray, b: AABB, t: real)
    requires Ordered(b) && NoZeroComponent(r.normDirection)
    requires EntryTime(r, b) <= t <= ExitTime(r, b)
    ensures b.min.x <= r.normDirection.x * t + r.origin.x <= b.max.x
  {
    SlabBounds(r, b);
    SlabContains(r.origin.x, r.normDirection.x, b.min.x, b.max.x, t);
  }

  lemma BetweenSlabsY(r: Ray, b: AABB, t: real)
    requires Ordered(b) && NoZeroComponent(r.normDirection)
    requires EntryTime(r, b) <= t <= ExitTime(r, b)
    ensures b.min.y <= r.normDirection.y * t + r.origin.y <= b.max.y
  {
    SlabBounds(r, b);
    SlabContains(r.origin.y, r.normDirection.y, b.min.y, b.max.y, t);
  }

  lemma BetweenSlabsZ(r: Ray, b: AABB, t: real)
    requires Ordered(b) && NoZeroComponent(r.normDirection)
    requires EntryTime(r, b) <= t <= ExitTime(r, b)
    ensures b.min.z <= r.normDirection.z * t + r.origin.z <= b.max.z
  {
    SlabBounds(r, b);
    SlabContains(r.origin.z, r.normDirection.z, b.min.z, b.max.z, t);
  }

  /** So a reported hit lies inside the box. */
  lemma HitPointInBox(r: Ray, b: AABB)
    requires Ordered(b) && NoZeroComponent(r.normDirection)
    requires IntersectsBoxNormalized(r, b) != -1.0
    ensures Contains(b, GetPoint(r, IntersectsBoxNormalized(r, b)))
  {
    BetweenSlabsInBox(r, b, IntersectsBoxNormalized(r, b));
  }

  /** The entry is no earlier than any slab's entry and the exit no later
      than any slab's exit. */
  lemma SlabBounds(r: Ray, b: AABB)
    ensures SlabNear(r.origin.x, r.normDirection.x, b.min.x, b.max.x) <= EntryTime(r, b)
    ensures SlabNear(r.origin.y, r.normDirection.y, b.min.y, b.max.y) <= EntryTime(r, b)
    ensures SlabNear(r.origin.z, r.normDirection.z, b.min.z, b.max.z) <= EntryTime(r, b)
    ensures ExitTime(r, b) <= SlabFar(r.origin.x, r.normDirection.x, b.min.x, b.max.x)
    ensures ExitTime(r, b) <= SlabFar(r.origin.y, r.normDirection.y, b.min.y, b.max.y)
    ensures ExitTime(r, b) <= SlabFar(r.origin.z, r.normDirection.z, b.min.z, b.max.z)
  {
  }

  /** A slab endpoint puts the coordinate exactly on one of its two planes. */
  lemma SlabEndOnPlane(o: real, n: real, lo: real, hi: real, t: real)
    requires n != 0.0
    requires t == SlabNear(o, n, lo, hi) || t == SlabFar(o, n, lo, hi)
    ensures n * t + o == lo || n * t + o == hi
  {
    assert n * ((lo - o) / n) == lo - o;
    assert n * ((hi - o) / n) == hi - o;
  }

  /** The entry is one of the slab entries and the exit one of the slab exits. */
  lemma EntryExitAreSlabEnds(r: Ray, b: AABB)
    ensures || EntryTime(r, b) == SlabNear(r.origin.x, r.normDirection.x, b.min.x, b.max.x)
            || EntryTime(r, b) == SlabNear(r.origin.y, r.normDirection.y, b.min.y, b.max.y)
            || EntryTime(r, b) == SlabNear(r.origin.z, r.normDirection.z, b.min.z, b.max.z)
    ensures || ExitTime(r, b) == SlabFar(r.origin.x, r.normDirection.x, b.min.x, b.max.x)
            || ExitTime(r, b) == SlabFar(r.origin.y, r.normDirection.y, b.min.y, b.max.y)
            || ExitTime(r, b) == SlabFar(r.origin.z, r.normDirection.z, b.min.z, b.max.z)
  {
  }

  /** At an end of some slab the ray's point lies on one of the box's face planes. */
  lemma SlabEndOnFacePlane(r: Ray, b: AABB, t: real)
    requires NoZeroComponent(r.normDirection)
    requires || t == SlabNear(r.origin.x, r.normDirection.x, b.min.x, b.max.x)
             || t == SlabFar(r.origin.x, r.normDirection.x, b.min.x, b.max.x)
             || t == SlabNear(r.origin.y, r.normDirection.y, b.min.y, b.max.y)
             || t == SlabFar(r.origin.y, r.normDirection.y, b.min.y, b.max.y)
             || t == SlabNear(r.origin.z, r.normDirection.z, b.min.z, b.max.z)
             || t == SlabFar(r.origin.z, r.normDirection.z, b.min.z, b.max.z)
    ensures var p := GetPoint(r, t);
            p.x == b.min.x || p.x == b.max.x || p.y == b.min.y || p.y == b.max.y
            || p.z == b.min.z || p.z == b.max.z
  {
    PointCoordinates(r, t);
    if t == SlabNear(r.origin.x, r.normDirection.x, b.min.x, b.max.x)
       || t == SlabFar(r.origin.x, r.normDirection.x, b.min.x, b.max.x) {
      SlabEndOnPlane(r.origin.x, r.normDirection.x, b.min.x, b.max.x, t);
    } else if t == SlabNear(r.origin.y, r.normDirection.y, b.min.y, b.max.y)
       || t == SlabFar(r.origin.y, r.normDirection.y, b.min.y, b.max.y) {
      SlabEndOnPlane(r.origin.y, r.normDirection.y, b.min.y, b.max.y, t);
    } else {
      SlabEndOnPlane(r.origin.z, r.normDirection.z, b.min.z, b.max.z, t);
    }
  }

  /** With no zero direction component, the hit point lies on a face plane, so
      `getFaceNormal` finds a normal for it. */
  lemma HitPointHasFaceNormal(r: Ray, b: AABB)
    requires NoZeroComponent(r.normDirection)
    requires IntersectsBoxNormalized(r, b) != -1.0
    ensures GetFaceNormal(b, GetPoint(r, IntersectsBoxNormalized(r, b))).Some?
  {
    EntryExitAreSlabEnds(r, b);
    SlabEndOnFacePlane(r, b, IntersectsBoxNormalized(r, b));
  }

  /** A segment from `origin` to the point `dist` along a unit vector `u` has
      that length and normalizes back to `u`. */
  lemma MakeRayAlongUnit(origin: Vector3, endPoint: Vector3, u: Vector3, dist: real)
    requires Dot(u, u) == 1.0 && dist > 0.0 && endPoint == Add(origin, Scale(u, dist))
    ensures IsLengthOf(dist, Sub(endPoint, origin))
    ensures MakeRay(origin, endPoint, dist).normDirection == u
  {
    var d := Sub(endPoint, origin);
    assert d == Scale(u, dist);
    assert Dot(d, d) == (dist * dist) * Dot(u, u) by {
      ScaledDot(u.x, u.y, u.z, dist);
    }
    CancelScale(u.x, dist);
    CancelScale(u.y, dist);
    CancelScale(u.z, dist);
  }

  lemma CancelScale(a: real, d: real)
    requires d != 0.0
    ensures (a * d) * (1.0 / d) == a
  {
    assert d * (1.0 / d) == 1.0;
    assert (a * d) * (1.0 / d) == a * (d * (1.0 / d));
  }

  /** The box of the ray tests: corners (0,0,0) and (2,2,2), as `TestBoxCorners`
      shows for the box of centre (1,1,1) and size (2,2,2). */
  predicate IsTestBox(b: AABB) {
    b.min == Zero() && b.max == Vector3(2.0, 2.0, 2.0)
  }

  /** Falling from (1,3,1) to (1,1.5,1) onto the top of the test box: hit at
      t = 1, at (1,2,1), whose face normal is (0,1,0). */
  lemma RayAboveTest(r: Ray, b: AABB)
    requires r.origin == Vector3(1.0, 3.0, 1.0) && r.normDirection == Down() && r.distance == 1.5
    requires IsTestBox(b)
    ensures IntersectsBox(r, b) == 1.0 && GetPoint(r, 1.0) == Vector3(1.0, 2.0, 1.0)
    ensures GetFaceNormal(b, GetPoint(r, 1.0)) == Some(Up())
  {
    assert SlabNear(1.0, 0.0, 0.0, 2.0) == -10000.0 && SlabFar(1.0, 0.0, 0.0, 2.0) == 10000.0;
    assert SlabNear(3.0, -1.0, 0.0, 2.0) == 1.0 && SlabFar(3.0, -1.0, 0.0, 2.0) == 3.0;
  }

  /** From (1,y,-1) towards (1,y,0.5) or (1,y,3), for a height y in [0, 1]:
      hit at t = 1, at (1,y,0), whose face normal is (0,0,-1). The front and
      through rays have y = 1, the low front ray y = 0.001. */
  lemma RayFrontTest(r: Ray, b: AABB, y: real)
    requires 0.0 <= y <= 1.0
    requires r.origin == Vector3(1.0, y, -1.0) && r.normDirection == Forward() && r.distance >= 1.0
    requires IsTestBox(b)
    ensures IntersectsBox(r, b) == 1.0 && GetPoint(r, 1.0) == Vector3(1.0, y, 0.0)
    ensures GetFaceNormal(b, GetPoint(r, 1.0)) == Some(Backward())
  {
    assert SlabNear(1.0, 0.0, 0.0, 2.0) == -10000.0 && SlabFar(1.0, 0.0, 0.0, 2.0) == 10000.0;
    assert SlabNear(y, 0.0, 0.0, 2.0) == (0.0 - y) / Epsilon;
    assert SlabFar(y, 0.0, 0.0, 2.0) == (2.0 - y) / Epsilon;
    assert SlabNear(-1.0, 1.0, 0.0, 2.0) == 1.0 && SlabFar(-1.0, 1.0, 0.0, 2.0) == 3.0;
  }

  /** From (1,1,-10) to (1,1,-1): the box would be entered at 10, beyond the
      segment's length 9, so no hit. */
  lemma RayTooFarTest(r: Ray, b: AABB)
    requires r.origin == Vector3(1.0, 1.0, -10.0) && r.normDirection == Forward() && r.distance == 9.0
    requires IsTestBox(b)
    ensures IntersectsBoxNormalized(r, b) == 10.0 && IntersectsBox(r, b) == -1.0
  {
    assert SlabNear(1.0, 0.0, 0.0, 2.0) == -10000.0 && SlabFar(1.0, 0.0, 0.0, 2.0) == 10000.0;
    assert SlabNear(-10.0, 1.0, 0.0, 2.0) == 10.0 && SlabFar(-10.0, 1.0, 0.0, 2.0) == 12.0;
  }

  /** From (-3,-3,0) to (-2,-2,0), a segment of length sqrt 2: the box would be
      entered only at 3 sqrt 2, so no hit. */
  lemma RayDiagonalTest(r: Ray, b: AABB, len: real)
    requires len > 0.0 && len * len == 2.0
    requires r.origin == Vector3(-3.0, -3.0, 0.0) && r.distance == len
    requires r.normDirection == Vector3(1.0 / len, 1.0 / len, 0.0)
    requires IsTestBox(b)
    ensures IntersectsBox(r, b) == -1.0
  {
    var k := 1.0 / len;
    assert k * len == 1.0;
    assert 3.0 / k == 3.0 * len && 5.0 / k == 5.0 * len;
    assert SlabNear(-3.0, k, 0.0, 2.0) == 3.0 * len;
    assert EntryTime(r, b) >= 3.0 * len;
  }
}
