/**
 * Three-component vectors over the reals, standing in for the engine's f32 `Vec3`.
 * Rounding is not modelled: every component is an exact real.
 */
module Vectors {

  datatype Vec3 = Vec3(x: real, y: real, z: real)

  const Zero: Vec3 := Vec3(0.0, 0.0, 0.0)

  function Plus(a: Vec3, b: Vec3): Vec3 {
    Vec3(a.x + b.x, a.y + b.y, a.z + b.z)
  }

  function Scale(a: Vec3, k: real): Vec3 {
    Vec3(a.x * k, a.y * k, a.z * k)
  }

  function Dot(a: Vec3, b: Vec3): real {
    a.x * b.x + a.y * b.y + a.z * b.z
  }

  function Cross(a: Vec3, b: Vec3): Vec3 {
    Vec3(a.y * b.z - a.z * b.y, a.z * b.x - a.x * b.z, a.x * b.y - a.y * b.x)
  }

  function SquaredLength(a: Vec3): real {
    Dot(a, a)
  }

  /**
   * `u` is `v` scaled to length 1: `u` has unit length, is parallel to `v`
   * (zero cross product) and points the same way (positive dot product).
   * Stated without square roots, which Dafny's reals lack.
   */
  ghost predicate IsNormalizationOf(u: Vec3, v: Vec3) {
    v != Zero && SquaredLength(u) == 1.0 && Cross(u, v) == Zero && Dot(u, v) > 0.0
  }

  /** What the engine's `normalize` promises on every non-zero vector. */
  ghost predicate IsNormalizer(normalize: Vec3 -> Vec3) {
    forall v :: v != Zero ==> IsNormalizationOf(normalize(v), v)
  }

  /**
   * A vector along one axis of the x-y plane with length 1 is its own
   * normalisation, whatever normaliser produced it.
   */
  lemma AxisVectorNormalizesToItself(u: Vec3, v: Vec3)
    requires v.z == 0.0
    requires (v.x == 0.0 && (v.y == 1.0 || v.y == -1.0)) || (v.y == 0.0 && (v.x == 1.0 || v.x == -1.0))
    requires IsNormalizationOf(u, v)
    ensures u == v
  {
    // Each branch only renames `v`; the arithmetic is done with `v` a literal.
    if v == Vec3(0.0, 1.0, 0.0) {
      UpAxisNormalization(u);
    } else if v == Vec3(0.0, -1.0, 0.0) {
      DownAxisNormalization(u);
    } else if v == Vec3(1.0, 0.0, 0.0) {
      RightAxisNormalization(u);
    } else {
      LeftAxisNormalization(u);
    }
  }

  /** The unit vectors along the axes of the x-y plane are their own normalisations. */
  lemma UpAxisNormalization(u: Vec3)
    requires IsNormalizationOf(u, Vec3(0.0, 1.0, 0.0))
    ensures u == Vec3(0.0, 1.0, 0.0)
  {
    assert u.x == 0.0 && u.z == 0.0 && u.y > 0.0;
    assert u.x * u.x == 0.0 && u.z * u.z == 0.0;
    PositiveUnitRoot(u.y);
  }

  lemma DownAxisNormalization(u: Vec3)
    requires IsNormalizationOf(u, Vec3(0.0, -1.0, 0.0))
    ensures u == Vec3(0.0, -1.0, 0.0)
  {
    assert (-u.y) * (-u.y) == u.y * u.y;
    PositiveUnitRoot(-u.y);
  }

  lemma RightAxisNormalization(u: Vec3)
    requires IsNormalizationOf(u, Vec3(1.0, 0.0, 0.0))
    ensures u == Vec3(1.0, 0.0, 0.0)
  {
    assert u.y == 0.0 && u.z == 0.0 && u.x > 0.0;
    assert u.y * u.y == 0.0 && u.z * u.z == 0.0;
    PositiveUnitRoot(u.x);
  }

  lemma LeftAxisNormalization(u: Vec3)
    requires IsNormalizationOf(u, Vec3(-1.0, 0.0, 0.0))
    ensures u == Vec3(-1.0, 0.0, 0.0)
  {
    assert (-u.x) * (-u.x) == u.x * u.x;
    PositiveUnitRoot(-u.x);
  }

  /** A positive square root of 1 is 1. */
  lemma PositiveUnitRoot(b: real)
    requires b * b == 1.0 && b > 0.0
    ensures b == 1.0
  {
  }

  /**
   * The normalisation of a diagonal of the x-y plane (both components ±1) has
   * both components of squared size 1/2, with the signs of the diagonal, and no z.
   */
  lemma DiagonalNormalization(u: Vec3, v: Vec3)
    requires v.z == 0.0
    requires v.x == 1.0 || v.x == -1.0
    requires v.y == 1.0 || v.y == -1.0
    requires IsNormalizationOf(u, v)
    ensures u.z == 0.0
    ensures u.x * u.x == 0.5 && u.y * u.y == 0.5
    ensures u.x * v.x > 0.0 && u.y * v.y > 0.0
  {
    assert Cross(u, v) == Zero;
    assert u.z == 0.0;
    assert u.x * v.y == u.y * v.x;
    assert u.x * u.x == u.y * u.y;
  }

  /** The normalisation of a vector of the x-y plane stays in that plane. */
  lemma PlanarNormalization(u: Vec3, v: Vec3)
    requires v.z == 0.0
    requires IsNormalizationOf(u, v)
    ensures u.z == 0.0
  {
    assert Cross(u, v) == Zero;
    assert u.z * v.y == 0.0 && u.z * v.x == 0.0;
    assert v.x != 0.0 || v.y != 0.0;
  }
}
