/**
 Exact-real stand-ins for the Unity maths the flipper pipeline uses: vectors,
 degree/radian conversion, the C# floating-point remainder, ceiling, and a
 rotation about the z axis. Cosine and sine stay uninterpreted: they are
 fields of a `Trig` record that every geometric function takes as a parameter,
 so nothing is ever proved about their values.
 */
module Geometry {

  datatype Vec3 = Vec3(x: real, y: real, z: real)

  /** Unity's `Mathf.PI`, written as a decimal. */
  const Pi: real := 3.1415927

  /** The uninterpreted trigonometry: `cos` and `sin` of an angle in radians. */
  datatype Trig = Trig(cos: real -> real, sin: real -> real)

  function Abs(x: real): (r: real)
    ensures r >= 0.0
    ensures r == x || r == -x
  {
    if x < 0.0 then -x else x
  }

  function Max(a: real, b: real): (r: real)
    ensures r >= a && r >= b
    ensures r == a || r == b
  {
    if a >= b then a else b
  }

  /** `math.radians` / `* Mathf.PI / 180`. */
  function Radians(deg: real): real
  {
    deg * Pi / 180.0
  }

  /** `Mathf.CeilToInt`: the least integer not below `x`. */
  function Ceil(x: real): (n: int)
    ensures x <= n as real < x + 1.0
  {
    -((-x).Floor)
  }

  /** Integer part of `q`, rounding toward zero (how C# `%` on floats picks its quotient). */
  function Truncate(q: real): (n: int)
    ensures q >= 0.0 ==> 0 <= n && n as real <= q < n as real + 1.0
    ensures q < 0.0 ==> n <= 0 && n as real - 1.0 < q <= n as real
  {
    if q >= 0.0 then q.Floor else -((-q).Floor)
  }

  /** C# `a % 360` on floats: the remainder carries the sign of `a`. */
  function Remainder360(a: real): (r: real)
    ensures -360.0 < r < 360.0
    ensures a >= 0.0 ==> r >= 0.0
    ensures a <= 0.0 ==> r <= 0.0
  {
    a - 360.0 * Truncate(a / 360.0) as real
  }

  /**
   The bound normalisation of `AddPolyArc`: `a % 360`, then `+ 360` when the
   remainder is negative.
   */
  function NormalizeDegrees(a: real): (r: real)
    ensures 0.0 <= r < 360.0
  {
    var m := Remainder360(a);
    if m < 0.0 then m + 360.0 else m
  }

  /**
   Whatever the sign of the input, normalisation agrees with the Euclidean
   remainder: it subtracts exactly `floor(a / 360)` whole turns.
   */
  lemma NormalizeIsEuclidean(a: real)
    ensures NormalizeDegrees(a) == a - 360.0 * (a / 360.0).Floor as real
  {
    var q := a / 360.0;
    if q < 0.0 {
      var c := Truncate(q);
      if c as real != q {
        assert c - 1 == q.Floor;
      }
    }
  }

  /** Normalisation depends only on the angle modulo whole turns. */
  lemma NormalizeWholeTurns(a: real, k: int)
    ensures NormalizeDegrees(a + 360.0 * k as real) == NormalizeDegrees(a)
  {
    NormalizeIsEuclidean(a);
    NormalizeIsEuclidean(a + 360.0 * k as real);
    assert (a + 360.0 * k as real) / 360.0 == a / 360.0 + k as real;
    assert ((a + 360.0 * k as real) / 360.0).Floor == (a / 360.0).Floor + k;
  }

  /** An angle already in `[0, 360)` is left alone. */
  lemma NormalizeFixesCanonical(a: real)
    requires 0.0 <= a < 360.0
    ensures NormalizeDegrees(a) == a
  {
    NormalizeIsEuclidean(a);
    assert (a / 360.0).Floor == 0;
  }

  /** `Quaternion.Euler(0, 0, deg) * v`: rotation of `v` about the z axis by `deg` degrees. */
  function RotateZ(trig: Trig, deg: real, v: Vec3): Vec3
  {
    var c := trig.cos(Radians(deg));
    var s := trig.sin(Radians(deg));
    Vec3(v.x * c - v.y * s, v.x * s + v.y * c, v.z)
  }

  /** Every point of `pts` rotated by the same angle, in the same order. */
  function RotateAll(trig: Trig, deg: real, pts: seq<Vec3>): (r: seq<Vec3>)
    ensures |r| == |pts|
    ensures forall i :: 0 <= i < |pts| ==> r[i] == RotateZ(trig, deg, pts[i])
  {
    seq(|pts|, i requires 0 <= i < |pts| => RotateZ(trig, deg, pts[i]))
  }
}
