/**
  The 3-component vector helpers of the scene toy: construction, addition,
  subtraction, scaling, the dot product and normalisation.

  Coordinates are `real`: the program's `double` rounding is not modelled.
  Dafny has no square root, so a length is never computed here; it is a
  value `l` that the caller supplies together with the fact `IsLength(v, l)`
  (l is non-negative and l * l is the dot product of v with itself), which is
  exactly what `sqrt(vdot(v, v))` returns in real arithmetic.
*/
module Vectors {

  datatype Vector3 = Vector3(x: real, y: real, z: real)

  /** Below this length a vector counts as degenerate and is not normalised. */
  const Tiny: real := 1e-12

  const Zero: Vector3 := Vector3(0.0, 0.0, 0.0)
  const Up: Vector3 := Vector3(0.0, 1.0, 0.0)

  function V3(x: real, y: real, z: real): Vector3 {
    Vector3(x, y, z)
  }

  function Add(a: Vector3, b: Vector3): Vector3 {
    V3(a.x + b.x, a.y + b.y, a.z + b.z)
  }

  function Sub(a: Vector3, b: Vector3): Vector3 {
    V3(a.x - b.x, a.y - b.y, a.z - b.z)
  }

  function Scale(a: Vector3, s: real): Vector3 {
    V3(a.x * s, a.y * s, a.z * s)
  }

  function Dot(a: Vector3, b: Vector3): real {
    a.x * b.x + a.y * b.y + a.z * b.z
  }

  function Abs(x: real): real {
    if x < 0.0 then -x else x
  }

  /** `l` is the Euclidean length of `v`: what `vlen(v)` returns. */
  ghost predicate IsLength(v: Vector3, l: real) {
    0.0 <= l && l * l == Dot(v, v)
  }

  /** +Y is a unit vector. */
  lemma UpIsUnit()
    ensures IsLength(Up, 1.0)
  {
  }

  /** Scaling a vector by s scales its squared length by s * s. */
  lemma DotScale(a: Vector3, s: real)
    ensures Dot(Scale(a, s), Scale(a, s)) == s * s * Dot(a, a)
  {
  }

  /** A unit vector scaled by a non-negative s has length s. */
  lemma ScaledUnitLength(u: Vector3, s: real)
    requires IsLength(u, 1.0)
    requires 0.0 <= s
    ensures IsLength(Scale(u, s), s)
  {
  }

  /** Moving a point by s >= 0 along a unit vector ends exactly s away from it. */
  lemma ShiftAlongUnit(c: Vector3, u: Vector3, s: real)
    requires IsLength(u, 1.0)
    requires 0.0 <= s
    ensures IsLength(Sub(Add(c, Scale(u, s)), c), s)
  {
    ScaledUnitLength(u, s);
    assert Sub(Add(c, Scale(u, s)), c) == Scale(u, s);
  }

  /**
    `vnorm`: the unit vector in the direction of `a`, or the zero vector when
    the length `len` of `a` is below 1e-12 (no division by a near-zero length).
  */
  function Norm(a: Vector3, len: real): (r: Vector3)
    requires IsLength(a, len)
    ensures len < Tiny ==> r == Zero
    ensures Tiny <= len ==> IsLength(r, 1.0) && r == Scale(a, 1.0 / len)
  {
    if len < Tiny then Zero
    else
      var k := 1.0 / len;
      assert IsLength(Scale(a, k), 1.0) by {
        DotScale(a, k);
        assert k * len == 1.0;
        calc {
          k * k * Dot(a, a);
          k * k * (len * len);
          (k * len) * (k * len);
          1.0;
        }
      }
      Scale(a, k)
  }

  /** The result of `Norm` has length exactly 0 or exactly 1, decided by the input's length. */
  lemma NormLength(a: Vector3, len: real)
    requires IsLength(a, len)
    ensures IsLength(Norm(a, len), if len < Tiny then 0.0 else 1.0)
  {
  }
}
