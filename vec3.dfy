/** The slice of the host's 3D math library that the collision core uses.

    Vectors and quaternions are values over `real`. The only operation that
    needs an irrational function is a vector length (a square root): wherever
    the source calls `Vector3.Distance` or `Vector3.Normalize`, the model takes
    the length as an input and states what it must satisfy (`IsLengthOf`). */
module Math3D {

  datatype Vector3 = Vector3(x: real, y: real, z: real)

  function Zero(): Vector3 { Vector3(0.0, 0.0, 0.0) }
  function Up(): Vector3 { Vector3(0.0, 1.0, 0.0) }
  function Down(): Vector3 { Vector3(0.0, -1.0, 0.0) }
  function Forward(): Vector3 { Vector3(0.0, 0.0, 1.0) }
  function Backward(): Vector3 { Vector3(0.0, 0.0, -1.0) }
  function Right(): Vector3 { Vector3(1.0, 0.0, 0.0) }
  function Left(): Vector3 { Vector3(-1.0, 0.0, 0.0) }

  function Add(a: Vector3, b: Vector3): Vector3 {
    Vector3(a.x + b.x, a.y + b.y, a.z + b.z)
  }

  function Sub(a: Vector3, b: Vector3): Vector3 {
    Vector3(a.x - b.x, a.y - b.y, a.z - b.z)
  }

  /** `multiplyByFloats(s, s, s)` */
  function Scale(a: Vector3, s: real): Vector3 {
    Vector3(a.x * s, a.y * s, a.z * s)
  }

  function Dot(a: Vector3, b: Vector3): real {
    a.x * b.x + a.y * b.y + a.z * b.z
  }

  function Abs(r: real): (a: real)
    ensures a >= 0.0 && (a == r || a == -r)
  {
    if r < 0.0 then -r else r
  }

  function Min(a: real, b: real): (m: real)
    ensures m <= a && m <= b && (m == a || m == b)
  {
    if a < b then a else b
  }

  function Max(a: real, b: real): (m: real)
    ensures m >= a && m >= b && (m == a || m == b)
  {
    if a > b then a else b
  }

  /** `len` is the Euclidean length of `v`: what the host's square root yields. */
  predicate IsLengthOf(len: real, v: Vector3) {
    len >= 0.0 && len * len == Dot(v, v)
  }

  /** A square root as the host math library provides it, on non-negative arguments. */
  ghost predicate IsSqrt(sqrt: real -> real) {
    forall r :: r >= 0.0 ==> sqrt(r) >= 0.0 && sqrt(r) * sqrt(r) == r
  }

  /** `Vector3.Normalize` given the vector's length: a vector of length zero
      is returned unchanged, any other vector is divided by its length. */
  function Normalized(v: Vector3, len: real): Vector3
    requires IsLengthOf(len, v)
  {
    if len == 0.0 then v else Scale(v, 1.0 / len)
  }

  /** A normalized vector of positive length has unit length and points the
      same way; a vector of length zero is the zero vector and comes back as is. */
  lemma NormalizedIsUnit(v: Vector3, len: real)
    requires IsLengthOf(len, v)
    ensures len == 0.0 ==> Normalized(v, len) == v && Dot(v, v) == 0.0
    ensures len > 0.0 ==> Dot(Normalized(v, len), Normalized(v, len)) == 1.0
    ensures len > 0.0 ==> Scale(Normalized(v, len), len) == v
  {
    if len > 0.0 {
      UnitAfterDivision(v, len);
    }
  }

  lemma UnitAfterDivision(v: Vector3, len: real)
    requires len > 0.0 && len * len == Dot(v, v)
    ensures Dot(Scale(v, 1.0 / len), Scale(v, 1.0 / len)) == 1.0
    ensures Scale(Scale(v, 1.0 / len), len) == v
  {
    var k := 1.0 / len;
    assert k * len == 1.0;
    calc {
      Dot(Scale(v, k), Scale(v, k));
      (v.x * k) * (v.x * k) + (v.y * k) * (v.y * k) + (v.z * k) * (v.z * k);
      (v.x * v.x + v.y * v.y + v.z * v.z) * (k * k);
      (len * len) * (k * k);
      (len * k) * (len * k);
    }
  }

  /** `Vector3.Lerp(a, b, t)`: `a + (b - a) * t`. */
  function Lerp(a: Vector3, b: Vector3, t: real): (r: Vector3)
    ensures t == 0.0 ==> r == a
    ensures t == 1.0 ==> r == b
  {
    Add(a, Scale(Sub(b, a), t))
  }

  /** Reflection of `v` across the plane with normal `n`:
      `n * (-2 (v . n)) + v`, as the bounce code computes it. */
  function Reflect(v: Vector3, n: Vector3): Vector3 {
    Add(Scale(n, -2.0 * Dot(v, n)), v)
  }

  /** Against a unit normal, reflection negates the normal component,
      keeps the tangential part and keeps the speed. */
  lemma ReflectUnitNormal(v: Vector3, n: Vector3)
    requires Dot(n, n) == 1.0
    ensures Dot(Reflect(v, n), n) == -Dot(v, n)
    ensures Sub(Reflect(v, n), Scale(n, Dot(Reflect(v, n), n))) == Sub(v, Scale(n, Dot(v, n)))
    ensures Dot(Reflect(v, n), Reflect(v, n)) == Dot(v, v)
  {
    ReflectNegatesNormalPart(v, n);
    ReflectKeepsSpeed(v, n);
  }

  lemma ReflectNegatesNormalPart(v: Vector3, n: Vector3)
    requires Dot(n, n) == 1.0
    ensures Dot(Reflect(v, n), n) == -Dot(v, n)
  {
    var k := -2.0 * Dot(v, n);
    assert Dot(Reflect(v, n), n) == k * Dot(n, n) + Dot(v, n) by {
      Distribute(n.x, n.y, n.z, k, v.x, v.y, v.z, n.x, n.y, n.z);
    }
  }

  lemma ReflectKeepsSpeed(v: Vector3, n: Vector3)
    requires Dot(n, n) == 1.0
    ensures Dot(Reflect(v, n), Reflect(v, n)) == Dot(v, v)
  {
    var d := Dot(v, n);
    var k := -2.0 * d;
    var r := Reflect(v, n);
    assert Dot(r, r) == k * k * Dot(n, n) + 2.0 * k * d + Dot(v, v) by {
      SquareOfSum(n.x, n.y, n.z, k, v.x, v.y, v.z);
    }
  }

  lemma Distribute(a1: real, a2: real, a3: real, k: real, b1: real, b2: real, b3: real,
                   c1: real, c2: real, c3: real)
    ensures (a1 * k + b1) * c1 + (a2 * k + b2) * c2 + (a3 * k + b3) * c3
         == k * (a1 * c1 + a2 * c2 + a3 * c3) + (b1 * c1 + b2 * c2 + b3 * c3)
  {
  }

  lemma SquareOfSum(a1: real, a2: real, a3: real, k: real, b1: real, b2: real, b3: real)
    ensures (a1 * k + b1) * (a1 * k + b1) + (a2 * k + b2) * (a2 * k + b2) + (a3 * k + b3) * (a3 * k + b3)
         == k * k * (a1 * a1 + a2 * a2 + a3 * a3) + 2.0 * k * (b1 * a1 + b2 * a2 + b3 * a3)
            + (b1 * b1 + b2 * b2 + b3 * b3)
  {
  }

  /** Scaling by a factor in [0, 1] never increases the squared speed. */
  lemma ScaleNoFaster(v: Vector3, b: real)
    requires 0.0 <= b <= 1.0
    ensures Dot(Scale(v, b), Scale(v, b)) == b * b * Dot(v, v)
    ensures Dot(Scale(v, b), Scale(v, b)) <= Dot(v, v)
  {
    var s := Dot(v, v);
    assert Dot(Scale(v, b), Scale(v, b)) == (b * b) * s by {
      ScaledDot(v.x, v.y, v.z, b);
    }
    SquareNonNegative(v.x);
    SquareNonNegative(v.y);
    SquareNonNegative(v.z);
    assert s >= 0.0;
    assert b * b <= 1.0 by {
      assert b * b <= b * 1.0;
    }
    assert (b * b) * s <= 1.0 * s;
  }

  /** A bounce off a unit normal, damped by a factor in [0, 1], scales the
      squared speed by the factor's square and so never speeds up. */
  lemma DampedReflectNoFaster(v: Vector3, n: Vector3, b: real)
    requires Dot(n, n) == 1.0 && 0.0 <= b <= 1.0
    ensures Dot(Scale(Reflect(v, n), b), Scale(Reflect(v, n), b)) == b * b * Dot(v, v)
    ensures Dot(Scale(Reflect(v, n), b), Scale(Reflect(v, n), b)) <= Dot(v, v)
  {
    ReflectKeepsSpeed(v, n);
    ScaleNoFaster(Reflect(v, n), b);
  }

  lemma SquareNonNegative(a: real)
    ensures a * a >= 0.0
  {
    if a < 0.0 {
      assert a * a > 0.0;
    }
  }

  lemma ScaledDot(a: real, c: real, e: real, b: real)
    ensures (a * b) * (a * b) + (c * b) * (c * b) + (e * b) * (e * b) == (b * b) * (a * a + c * c + e * e)
  {
  }

  /** Orientation as a quaternion (w + xi + yj + zk). */
  datatype Quaternion = Quaternion(w: real, x: real, y: real, z: real)

  /** `Quaternion.multiply`: the Hamilton product. */
  function Multiply(a: Quaternion, b: Quaternion): Quaternion {
    Quaternion(
      a.w * b.w - a.x * b.x - a.y * b.y - a.z * b.z,
      a.w * b.x + a.x * b.w + a.y * b.z - a.z * b.y,
      a.w * b.y - a.x * b.z + a.y * b.w + a.z * b.x,
      a.w * b.z + a.x * b.y - a.y * b.x + a.z * b.w)
  }
}
