/** Axis-aligned bounding boxes (src/aabb.ts).

    A box is built once from a centre and a full size and never changes, so it
    is a value. `IsPointInside` keeps the source's axis slip on the lower y
    bound; `Contains` is the containment test the rest of the file evidently
    means, and the lemmas at the end say exactly where the two disagree. */
module BoundingBox {
  import opened Math3D
  import opened Optionals

  datatype AABB = AABB(center: Vector3, halfSize: Vector3, min: Vector3, max: Vector3)

  /** `min` lies below `max` on every axis. */
  predicate Ordered(b: AABB) {
    b.min.x <= b.max.x && b.min.y <= b.max.y && b.min.z <= b.max.z
  }

  /** The constructor: half the size around the centre, with the corners
      sorted per axis so that a negative size still gives an ordered box. */
  function FromCenterSize(center: Vector3, fullSize: Vector3): (b: AABB)
    ensures b.center == center && b.halfSize == Scale(fullSize, 0.5)
    ensures Ordered(b)
    ensures b.min.x + b.max.x == 2.0 * center.x && b.max.x - b.min.x == Abs(fullSize.x)
    ensures b.min.y + b.max.y == 2.0 * center.y && b.max.y - b.min.y == Abs(fullSize.y)
    ensures b.min.z + b.max.z == 2.0 * center.z && b.max.z - b.min.z == Abs(fullSize.z)
  {
    var half := Scale(fullSize, 0.5);
    var p1 := Add(center, half);
    var p2 := Sub(center, half);
    AABB(center, half,
         Vector3(Min(p1.x, p2.x), Min(p1.y, p2.y), Min(p1.z, p2.z)),
         Vector3(Max(p1.x, p2.x), Max(p1.y, p2.y), Max(p1.z, p2.z)))
  }

  /** The unit box of the source's tests: centre (1,1,1), size (2,2,2). */
  lemma TestBoxCorners()
    ensures FromCenterSize(Vector3(1.0, 1.0, 1.0), Vector3(2.0, 2.0, 2.0)).min == Zero()
    ensures FromCenterSize(Vector3(1.0, 1.0, 1.0), Vector3(2.0, 2.0, 2.0)).max == Vector3(2.0, 2.0, 2.0)
  {
    var b := FromCenterSize(Vector3(1.0, 1.0, 1.0), Vector3(2.0, 2.0, 2.0));
    assert b.min.x + b.max.x == 2.0 && b.max.x - b.min.x == 2.0;
    assert b.min.y + b.max.y == 2.0 && b.max.y - b.min.y == 2.0;
    assert b.min.z + b.max.z == 2.0 && b.max.z - b.min.z == 2.0;
  }

  /** `isPointInside` as written: its lower-bound test compares `p.x` (not
      `p.y`) with `min.y`. Bounds are inclusive. */
  function IsPointInside(b: AABB, p: Vector3): (inside: bool)
    ensures inside <==> b.min.x <= p.x && b.min.y <= p.x && b.min.z <= p.z
                        && p.x <= b.max.x && p.y <= b.max.y && p.z <= b.max.z
  {
    if p.x < b.min.x || p.x < b.min.y || p.z < b.min.z then false
    else if p.x > b.max.x || p.y > b.max.y || p.z > b.max.z then false
    else true
  }

  /** Inclusive containment on every axis. */
  predicate Contains(b: AABB, p: Vector3) {
    b.min.x <= p.x <= b.max.x && b.min.y <= p.y <= b.max.y && b.min.z <= p.z <= b.max.z
  }

  /** Outside the y slip the two tests agree: a contained point whose x also
      clears `min.y` passes, and a passing point that clears `min.y` is contained. */
  lemma InsideAgreesWithContains(b: AABB, p: Vector3)
    ensures Contains(b, p) && b.min.y <= p.x ==> IsPointInside(b, p)
    ensures IsPointInside(b, p) && b.min.y <= p.y ==> Contains(b, p)
    ensures b.min.y <= b.min.x ==> (Contains(b, p) ==> IsPointInside(b, p))
  {
  }

  /** A point strictly inside a box whose lower y bound exceeds that x is rejected. */
  lemma SlipRejectsContainedPoint()
    ensures var b := FromCenterSize(Vector3(1.0, 2.0, 1.0), Vector3(2.0, 2.0, 2.0));
            var p := Vector3(0.5, 2.0, 1.0);
            Contains(b, p) && !IsPointInside(b, p)
  {
  }

  /** A point far below the test box is accepted. */
  lemma SlipAcceptsPointBelow()
    ensures var b := FromCenterSize(Vector3(1.0, 1.0, 1.0), Vector3(2.0, 2.0, 2.0));
            var p := Vector3(1.0, -5.0, 1.0);
            IsPointInside(b, p) && !Contains(b, p)
  {
  }

  /** The containment cases of the source's tests on the unit test box. */
  lemma TestBoxContainment()
    ensures var b := FromCenterSize(Vector3(1.0, 1.0, 1.0), Vector3(2.0, 2.0, 2.0));
            && IsPointInside(b, Vector3(1.0, 1.0, 1.0))
            && IsPointInside(b, Vector3(2.0, 2.0, 2.0))
            && IsPointInside(b, Vector3(0.0, 0.0, 0.1))
            && IsPointInside(b, Vector3(1.0, 0.0, 0.0))
            && !IsPointInside(b, Vector3(2.0, 2.0, 2.01))
  {
    TestBoxCorners();
    TestBoxPoints(FromCenterSize(Vector3(1.0, 1.0, 1.0), Vector3(2.0, 2.0, 2.0)));
  }

  /** The same cases on any box with the test box's corners. */
  lemma TestBoxPoints(b: AABB)
    requires b.min == Zero() && b.max == Vector3(2.0, 2.0, 2.0)
    ensures && IsPointInside(b, Vector3(1.0, 1.0, 1.0))
            && IsPointInside(b, Vector3(2.0, 2.0, 2.0))
            && IsPointInside(b, Vector3(0.0, 0.0, 0.1))
            && IsPointInside(b, Vector3(1.0, 0.0, 0.0))
            && !IsPointInside(b, Vector3(2.0, 2.0, 2.01))
  {
  }

  /** Clamping one coordinate: first up to `lo`, then down to `hi`. */
  function ClampAxis(v: real, lo: real, hi: real): (r: real)
    ensures lo <= hi ==> lo <= r <= hi
    ensures lo <= v <= hi ==> r == v
    ensures lo <= hi && v < lo ==> r == lo
    ensures lo <= hi && v > hi ==> r == hi
  {
    var a := if v < lo then lo else v;
    if a > hi then hi else a
  }

  /** `clampPoint`: the point with each coordinate clamped into the box. */
  function ClampPoint(b: AABB, p: Vector3): (r: Vector3)
    ensures Ordered(b) ==> Contains(b, r)
    ensures Contains(b, p) ==> r == p
    ensures b.min.x <= p.x <= b.max.x ==> r.x == p.x
    ensures b.min.y <= p.y <= b.max.y ==> r.y == p.y
    ensures b.min.z <= p.z <= b.max.z ==> r.z == p.z
  {
    Vector3(ClampAxis(p.x, b.min.x, b.max.x),
            ClampAxis(p.y, b.min.y, b.max.y),
            ClampAxis(p.z, b.min.z, b.max.z))
  }

  lemma ClampIdempotent(b: AABB, p: Vector3)
    requires Ordered(b)
    ensures ClampPoint(b, ClampPoint(b, p)) == ClampPoint(b, p)
  {
  }

  /** JavaScript's `Number.MAX_VALUE`, the minimum search's starting distance. */
  const MaxValue: real := 179769313486231570814527423731704356798070567525844996598917476803157260780028538760589558632766878171540458953514382464234321326889464182768467546703537516986049910576551282076245490090389328944075868508455133942304583236903222948165808559332123348274797826204144723168738177180919299881250404026184124858368.0

  /** The six faces in the order the source probes them:
      0..2 are the min faces of x, y, z and 3..5 the max faces. */
  type Face = k: nat | k < 6

  function Axis(k: Face): nat { k % 3 }

  function Coord(v: Vector3, axis: nat): real
    requires axis < 3
  {
    if axis == 0 then v.x else if axis == 1 then v.y else v.z
  }

  /** The coordinate of face `k`'s plane. */
  function FaceBound(b: AABB, k: Face): real {
    if k < 3 then Coord(b.min, Axis(k)) else Coord(b.max, Axis(k))
  }

  /** The six unsigned distances from `p` to the face planes, in face order. */
  function Distances(b: AABB, p: Vector3): (ds: seq<real>)
    ensures |ds| == 6
    ensures forall k: Face :: ds[k] == Abs(Coord(p, Axis(k)) - FaceBound(b, k))
  {
    [Abs(p.x - b.min.x), Abs(p.y - b.min.y), Abs(p.z - b.min.z),
     Abs(p.x - b.max.x), Abs(p.y - b.max.y), Abs(p.z - b.max.z)]
  }

  /** The first index holding the least value. */
  function FirstMinIndex(ds: seq<real>): (k: nat)
    requires |ds| > 0
    ensures k < |ds|
    ensures forall j :: 0 <= j < |ds| ==> ds[k] <= ds[j]
    ensures forall j :: 0 <= j < k ==> ds[k] < ds[j]
  {
    if |ds| == 1 then 0
    else
      var k := FirstMinIndex(ds[..|ds| - 1]);
      if ds[|ds| - 1] < ds[k] then |ds| - 1 else k
  }

  /** The face the min-search settles on: the first nearest one, unless no
      distance is below `MaxValue`, in which case the search keeps index 0. */
  function NearestFace(ds: seq<real>): (k: Face)
    requires |ds| == 6
    ensures (exists j :: 0 <= j < 6 && ds[j] < MaxValue) ==>
              ds[k] < MaxValue
              && (forall j :: 0 <= j < 6 ==> ds[k] <= ds[j])
              && (forall j :: 0 <= j < k ==> ds[k] < ds[j])
    ensures (forall j :: 0 <= j < 6 ==> ds[j] >= MaxValue) ==> k == 0
  {
    var k := FirstMinIndex(ds);
    if ds[k] < MaxValue then k else 0
  }

  /** Moving `p` onto the plane of face `k` (the source's `switch`). */
  function ProjectToFace(b: AABB, p: Vector3, k: Face): (r: Vector3)
    ensures Coord(r, Axis(k)) == FaceBound(b, k)
    ensures forall a :: 0 <= a < 3 && a != Axis(k) ==> Coord(r, a) == Coord(p, a)
  {
    match k
    case 0 => p.(x := b.min.x)
    case 1 => p.(y := b.min.y)
    case 2 => p.(z := b.min.z)
    case 3 => p.(x := b.max.x)
    case 4 => p.(y := b.max.y)
    case 5 => p.(z := b.max.z)
  }

  /** What `getSurfacePoint` returns. */
  function SurfacePoint(b: AABB, p: Vector3): Vector3 {
    if !IsPointInside(b, p) then ClampPoint(b, p)
    else ProjectToFace(b, p, NearestFace(Distances(b, p)))
  }

  /** `getSurfacePoint`: clamp a point outside; project a point inside onto
      its nearest face, found by scanning the six distances with a strict `<`. */
  method GetSurfacePoint(b: AABB, p: Vector3) returns (surfacePoint: Vector3)
    ensures surfacePoint == SurfacePoint(b, p)
  {
    if !IsPointInside(b, p) {
      surfacePoint := ClampPoint(b, p);
    } else {
      var distances: seq<real> := [];
      distances := distances + [Abs(p.x - b.min.x)];
      distances := distances + [Abs(p.y - b.min.y)];
      distances := distances + [Abs(p.z - b.min.z)];
      distances := distances + [Abs(p.x - b.max.x)];
      distances := distances + [Abs(p.y - b.max.y)];
      distances := distances + [Abs(p.z - b.max.z)];
      assert distances == Distances(b, p);

      var minIndex := NearestIndex(distances);
      surfacePoint := ProjectToFace(b, p, minIndex);
    }
  }

  /** The scan of `getSurfacePoint`: start from `MaxValue` at index 0 and
      move to each later distance that is strictly smaller. */
  method NearestIndex(distances: seq<real>) returns (minIndex: Face)
    requires |distances| == 6
    ensures minIndex == NearestFace(distances)
  {
    var minDist := MaxValue;
    minIndex := 0;
    var i := 0;
    while i < |distances|
      invariant 0 <= i <= 6
      invariant i == 0 ==> minDist == MaxValue && minIndex == 0
      invariant i > 0 ==>
        var k := FirstMinIndex(distances[..i]);
        if distances[k] < MaxValue then minIndex == k && minDist == distances[k]
        else minIndex == 0 && minDist == MaxValue
    {
      assert distances[..i + 1][..i] == distances[..i];
      if distances[i] < minDist {
        minDist := distances[i];
        minIndex := i;
      }
      i := i + 1;
    }
    assert distances[..6] == distances;
  }

  /** A point that `IsPointInside` accepts ends up on the plane of the first
      nearest face and keeps its other two coordinates. */
  lemma SurfacePointInside(b: AABB, p: Vector3)
    requires IsPointInside(b, p)
    requires exists j :: 0 <= j < 6 && Distances(b, p)[j] < MaxValue
    ensures var ds := Distances(b, p);
            exists k: Face ::
              && (forall j :: 0 <= j < 6 ==> ds[k] <= ds[j])
              && (forall j :: 0 <= j < k ==> ds[k] < ds[j])
              && Coord(SurfacePoint(b, p), Axis(k)) == FaceBound(b, k)
              && (forall a :: 0 <= a < 3 && a != Axis(k) ==> Coord(SurfacePoint(b, p), a) == Coord(p, a))
  {
    var k := NearestFace(Distances(b, p));
    assert SurfacePoint(b, p) == ProjectToFace(b, p, k);
  }

  /** A point that `IsPointInside` rejects is clamped. */
  lemma SurfacePointOutside(b: AABB, p: Vector3)
    requires Ordered(b) && !IsPointInside(b, p)
    ensures SurfacePoint(b, p) == ClampPoint(b, p) && Contains(b, SurfacePoint(b, p))
  {
  }

  /** `getFaceNormal`: the first matching test of +y, +z, +x, -z, -x, -y
      (`>=` against `max`, `<=` against `min`); none for a point strictly inside. */
  function GetFaceNormal(b: AABB, p: Vector3): (n: Option<Vector3>)
    ensures n == None <==> (b.min.x < p.x < b.max.x && b.min.y < p.y < b.max.y && b.min.z < p.z < b.max.z)
    ensures n == Some(Up()) <==> p.y >= b.max.y
    ensures n == Some(Forward()) <==> p.y < b.max.y && p.z >= b.max.z
    ensures n == Some(Right()) <==> p.y < b.max.y && p.z < b.max.z && p.x >= b.max.x
    ensures n == Some(Backward()) <==> p.y < b.max.y && p.z < b.max.z && p.x < b.max.x && p.z <= b.min.z
    ensures n == Some(Left()) <==>
              p.y < b.max.y && p.z < b.max.z && p.x < b.max.x && p.z > b.min.z && p.x <= b.min.x
    ensures n == Some(Down()) <==>
              && p.y < b.max.y && p.z < b.max.z && p.x < b.max.x && p.z > b.min.z && p.x > b.min.x
              && p.y <= b.min.y
    ensures n.Some? ==> Dot(n.value, n.value) == 1.0
  {
    if p.y >= b.max.y then Some(Up())
    else if p.z >= b.max.z then Some(Forward())
    else if p.x >= b.max.x then Some(Right())
    else if p.z <= b.min.z then Some(Backward())
    else if p.x <= b.min.x then Some(Left())
    else if p.y <= b.min.y then Some(Down())
    else None
  }

  /** A point on the plane of any face gets a normal. */
  lemma FaceNormalOnFace(b: AABB, p: Vector3, k: Face)
    requires Coord(p, Axis(k)) == FaceBound(b, k)
    ensures GetFaceNormal(b, p).Some?
  {
  }

  /** `getClosestNormal`: the face normal at the surface point. When it is
      defined, `ClosestNormalDefined` says. */
  function GetClosestNormal(b: AABB, p: Vector3): (n: Option<Vector3>)
    ensures n.Some? ==> Dot(n.value, n.value) == 1.0
    ensures n == None <==> var q := SurfacePoint(b, p);
              b.min.x < q.x < b.max.x && b.min.y < q.y < b.max.y && b.min.z < q.z < b.max.z
  {
    GetFaceNormal(b, SurfacePoint(b, p))
  }

  /** Every point the source treats as inside, and every point truly outside
      an ordered box, gets a normal. */
  lemma ClosestNormalDefined(b: AABB, p: Vector3)
    requires Ordered(b)
    requires IsPointInside(b, p) || !Contains(b, p)
    ensures GetClosestNormal(b, p).Some?
  {
    if IsPointInside(b, p) {
      var k := NearestFace(Distances(b, p));
      FaceNormalOnFace(b, SurfacePoint(b, p), k);
    } else if p.x < b.min.x {
      FaceNormalOnFace(b, SurfacePoint(b, p), 0);
    } else if p.y < b.min.y {
      FaceNormalOnFace(b, SurfacePoint(b, p), 1);
    } else if p.z < b.min.z {
      FaceNormalOnFace(b, SurfacePoint(b, p), 2);
    } else if p.x > b.max.x {
      FaceNormalOnFace(b, SurfacePoint(b, p), 3);
    } else if p.y > b.max.y {
      FaceNormalOnFace(b, SurfacePoint(b, p), 4);
    } else {
      FaceNormalOnFace(b, SurfacePoint(b, p), 5);
    }
  }

  /** Because of the y slip, a point strictly inside a box can be rejected,
      clamped to itself, and receive no normal at all. */
  lemma SlipLeavesNoNormal()
    ensures var b := FromCenterSize(Vector3(1.0, 2.0, 1.0), Vector3(2.0, 2.0, 2.0));
            GetClosestNormal(b, Vector3(0.5, 2.0, 1.0)) == None
  {
  }
}
