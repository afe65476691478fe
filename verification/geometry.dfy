/** Real-valued 3D vectors and quaternions, and the squared-distance
    comparisons the gesture classifiers are built from.

    The source compares Euclidean distances (`distanceTo`) against thresholds.
    Dafny has no square root, so a comparison `distance < t` is modelled as
    `SqDist < t * t`; `ThresholdOnDistance` proves the two agree for every
    non-negative `d` whose square is the squared distance. */
module Geometry {

  datatype Vec3 = Vec3(x: real, y: real, z: real)

  /** A rotation as a quaternion; the model only copies it. */
  datatype Quat = Quat(x: real, y: real, z: real, w: real)

  /** A freshly created mesh sits at the origin with the identity rotation. */
  const Origin: Vec3 := Vec3(0.0, 0.0, 0.0)
  const Identity: Quat := Quat(0.0, 0.0, 0.0, 1.0)

  /** The vector `v` moved up by `h` along the vertical (y) axis. */
  function Raise(v: Vec3, h: real): (r: Vec3)
    ensures r.x == v.x && r.z == v.z
    ensures r.y - v.y == h
  {
    Vec3(v.x, v.y + h, v.z)
  }

  /** The square of the Euclidean distance between `a` and `b`. */
  function SqDist(a: Vec3, b: Vec3): (d: real)
    ensures d >= 0.0
    ensures a == b ==> d == 0.0
  {
    var dx := a.x - b.x;
    var dy := a.y - b.y;
    var dz := a.z - b.z;
    dx * dx + dy * dy + dz * dz
  }

  /** `d` is the Euclidean distance between `a` and `b`. */
  ghost predicate IsDistance(d: real, a: Vec3, b: Vec3) {
    d >= 0.0 && d * d == SqDist(a, b)
  }

  /** `distanceTo(a, b) < t`, without a square root. */
  predicate Within(a: Vec3, b: Vec3, t: real) {
    SqDist(a, b) < t * t
  }

  /** `distanceTo(a, b) > t`, without a square root. */
  predicate Beyond(a: Vec3, b: Vec3, t: real) {
    SqDist(a, b) > t * t
  }

  /** Squaring is strictly monotone on the non-negative reals. */
  lemma SquareMonotone(x: real, y: real)
    requires 0.0 <= x && 0.0 <= y
    ensures x < y <==> x * x < y * y
  {
    if x < y {
      StrictProduct(x, x, y, y);
    } else {
      ProductMonotone(y, y, x, x);
    }
  }

  lemma StrictProduct(a: real, b: real, c: real, d: real)
    requires 0.0 <= a < c && 0.0 <= b < d
    ensures a * b < c * d
  {
    assert a * b <= c * b;
    assert c * b < c * d;
  }

  lemma ProductMonotone(a: real, b: real, c: real, d: real)
    requires 0.0 <= a <= c && 0.0 <= b <= d
    ensures a * b <= c * d
  {
    assert a * b <= c * b;
    assert c * b <= c * d;
  }

  /** The squared comparisons decide exactly what the distance comparisons
      decide, for every positive threshold. */
  lemma ThresholdOnDistance(a: Vec3, b: Vec3, d: real, t: real)
    requires IsDistance(d, a, b)
    requires t > 0.0
    ensures Within(a, b, t) <==> d < t
    ensures Beyond(a, b, t) <==> d > t
  {
    SquareMonotone(d, t);
    SquareMonotone(t, d);
  }

  /** Distance does not depend on the order of its arguments. */
  lemma SqDistSymmetric(a: Vec3, b: Vec3)
    ensures SqDist(a, b) == SqDist(b, a)
    ensures forall t :: Within(a, b, t) <==> Within(b, a, t)
    ensures forall t :: Beyond(a, b, t) <==> Beyond(b, a, t)
  {
    var dx := a.x - b.x;
    var dy := a.y - b.y;
    var dz := a.z - b.z;
    assert (b.x - a.x) * (b.x - a.x) == dx * dx;
    assert (b.y - a.y) * (b.y - a.y) == dy * dy;
    assert (b.z - a.z) * (b.z - a.z) == dz * dz;
  }

  /** Raising two points by the same height leaves their distance alone. */
  lemma RaisePreservesSqDist(a: Vec3, b: Vec3, h: real)
    ensures SqDist(Raise(a, h), Raise(b, h)) == SqDist(a, b)
  {
    assert (a.y + h) - (b.y + h) == a.y - b.y;
  }
}
