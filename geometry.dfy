/** Vectors, rays and affine maps as the ray tracer consumes them (openvdb math::Vec3,
    math::Ray, math::AffineMap). Doubles are modelled as reals. */
module Geometry {

  datatype Vec3 = Vec3(x: real, y: real, z: real)

  /** A ray with its parametric interval [t0, t1]. */
  datatype Ray = Ray(eye: Vec3, dir: Vec3, t0: real, t1: real)

  /** A 3x3 matrix, row by row. */
  datatype Mat3 = Mat3(r0: Vec3, r1: Vec3, r2: Vec3)

  /** An affine map: linear part followed by a translation. */
  datatype AffineMap = AffineMap(m: Mat3, t: Vec3)

  function Dot(u: Vec3, v: Vec3): real
  {
    u.x * v.x + u.y * v.y + u.z * v.z
  }

  function Plus(u: Vec3, v: Vec3): Vec3
  {
    Vec3(u.x + v.x, u.y + v.y, u.z + v.z)
  }

  function Minus(u: Vec3, v: Vec3): Vec3
  {
    Vec3(u.x - v.x, u.y - v.y, u.z - v.z)
  }

  function Negate(v: Vec3): Vec3
  {
    Vec3(-v.x, -v.y, -v.z)
  }

  function Abs(x: real): real
  {
    if x < 0.0 then -x else x
  }

  /** `applyJacobian`: the linear part alone. */
  function ApplyJacobian(f: AffineMap, v: Vec3): Vec3
  {
    Vec3(Dot(f.m.r0, v), Dot(f.m.r1, v), Dot(f.m.r2, v))
  }

  /** `applyMap`: linear part, then translation. */
  function ApplyMap(f: AffineMap, v: Vec3): Vec3
  {
    Plus(ApplyJacobian(f, v), f.t)
  }

  /** The translation cancels between two mapped points: their difference is the
      linear part applied to the difference of the points. */
  lemma ApplyMapDifference(f: AffineMap, p: Vec3, q: Vec3)
    ensures Minus(ApplyMap(f, p), ApplyMap(f, q)) == ApplyJacobian(f, Minus(p, q))
  {
    DotLinear(f.m.r0, p, q);
    DotLinear(f.m.r1, p, q);
    DotLinear(f.m.r2, p, q);
  }

  lemma DotLinear(u: Vec3, p: Vec3, q: Vec3)
    ensures Dot(u, p) - Dot(u, q) == Dot(u, Minus(p, q))
  {
    assert u.x * (p.x - q.x) == u.x * p.x - u.x * q.x;
    assert u.y * (p.y - q.y) == u.y * p.y - u.y * q.y;
    assert u.z * (p.z - q.z) == u.z * p.z - u.z * q.z;
  }

  /** Negating either vector negates the dot product. */
  lemma DotNegate(u: Vec3, v: Vec3)
    ensures Dot(u, Negate(v)) == -Dot(u, v)
  {
    assert u.x * -v.x == -(u.x * v.x);
    assert u.y * -v.y == -(u.y * v.y);
    assert u.z * -v.z == -(u.z * v.z);
  }
}
