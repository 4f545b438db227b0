/** Vectors of three exact reals: dot and cross products and the identities between them. */
module Vector3 {

  datatype Vec3 = Vec3(x: real, y: real, z: real)

  const ORIGIN := Vec3(0.0, 0.0, 0.0)

  const UNIT_SCALE := Vec3(1.0, 1.0, 1.0)

  function Dot3(u: Vec3, v: Vec3): real {
    u.x*v.x + u.y*v.y + u.z*v.z
  }

  function Cross3(u: Vec3, v: Vec3): Vec3 {
    Vec3(u.y*v.z - u.z*v.y, u.z*v.x - u.x*v.z, u.x*v.y - u.y*v.x)
  }

  function Scale3(k: real, v: Vec3): Vec3 {
    Vec3(k*v.x, k*v.y, k*v.z)
  }

  function Add3(u: Vec3, v: Vec3): Vec3 {
    Vec3(u.x + v.x, u.y + v.y, u.z + v.z)
  }

  function Sub3(u: Vec3, v: Vec3): Vec3 {
    Vec3(u.x - v.x, u.y - v.y, u.z - v.z)
  }

  lemma Dot3Scale(u: Vec3, k: real, v: Vec3)
    ensures Dot3(u, Scale3(k, v)) == k * Dot3(u, v)
  {
    assert k * Dot3(u, v) == k*(u.x*v.x + u.y*v.y + u.z*v.z);
  }

  lemma Cross3Perpendicular(u: Vec3, v: Vec3)
    ensures Dot3(u, Cross3(u, v)) == 0.0 && Dot3(v, Cross3(u, v)) == 0.0
  {
  }

  lemma Cross3Cyclic(u: Vec3, v: Vec3, w: Vec3)
    ensures Dot3(u, Cross3(v, w)) == Dot3(v, Cross3(w, u)) == Dot3(w, Cross3(u, v))
  {
    Triple(u, v, w);
    Triple(v, w, u);
    Triple(w, u, v);
  }

  lemma Triple(u: Vec3, v: Vec3, w: Vec3)
    ensures Dot3(u, Cross3(v, w)) == u.x*(v.y*w.z - v.z*w.y) + u.y*(v.z*w.x - v.x*w.z) + u.z*(v.x*w.y - v.y*w.x)
  {
  }

  lemma Dot3Symmetric(u: Vec3, v: Vec3)
    ensures Dot3(u, v) == Dot3(v, u)
  {
  }

  /** Every axis against the three cross products. */
  lemma CrossTable(r0: Vec3, r1: Vec3, r2: Vec3, d: real)
    requires d == Dot3(r0, Cross3(r1, r2))
    ensures Dot3(r1, Cross3(r1, r2)) == 0.0 && Dot3(r2, Cross3(r1, r2)) == 0.0
    ensures Dot3(r0, Cross3(r2, r0)) == 0.0 && Dot3(r1, Cross3(r2, r0)) == d && Dot3(r2, Cross3(r2, r0)) == 0.0
    ensures Dot3(r0, Cross3(r0, r1)) == 0.0 && Dot3(r1, Cross3(r0, r1)) == 0.0 && Dot3(r2, Cross3(r0, r1)) == d
  {
    Cross3Cyclic(r0, r1, r2);
    Cross3Perpendicular(r1, r2);
    Cross3Perpendicular(r2, r0);
    Cross3Perpendicular(r0, r1);
  }

  lemma Lagrange(u: Vec3, v: Vec3)
    ensures Dot3(Cross3(u, v), Cross3(u, v)) == Dot3(u, u)*Dot3(v, v) - Dot3(u, v)*Dot3(u, v)
  {
  }

  lemma LagrangePerpendicular(u: Vec3, v: Vec3)
    requires Dot3(u, v) == 0.0
    ensures Dot3(Cross3(u, v), Cross3(u, v)) == Dot3(u, u)*Dot3(v, v)
  {
    Lagrange(u, v);
  }

  lemma LagrangeParallel(u: Vec3, v: Vec3)
    requires Cross3(u, v) == ORIGIN
    ensures Dot3(u, v)*Dot3(u, v) == Dot3(u, u)*Dot3(v, v)
  {
    Lagrange(u, v);
  }

  lemma PerpendicularToBoth(w: Vec3, u: Vec3, v: Vec3)
    requires Dot3(w, u) == 0.0 && Dot3(w, v) == 0.0
    ensures Cross3(w, Cross3(u, v)) == ORIGIN
  {
    DoubleCross(w, u, v);
  }

  lemma DoubleCross(w: Vec3, u: Vec3, v: Vec3)
    ensures Cross3(w, Cross3(u, v)).x == u.x*Dot3(w, v) - v.x*Dot3(w, u)
    ensures Cross3(w, Cross3(u, v)).y == u.y*Dot3(w, v) - v.y*Dot3(w, u)
    ensures Cross3(w, Cross3(u, v)).z == u.z*Dot3(w, v) - v.z*Dot3(w, u)
  {
  }

  /** The determinant of orthogonal axes is, squared, the product of their squared lengths. */
  lemma DetOfOrthogonal(r0: Vec3, r1: Vec3, r2: Vec3)
    requires Dot3(r0, r1) == 0.0 && Dot3(r1, r2) == 0.0 && Dot3(r2, r0) == 0.0
    ensures Dot3(r2, Cross3(r0, r1)) * Dot3(r2, Cross3(r0, r1)) == Dot3(r2, r2) * (Dot3(r0, r0) * Dot3(r1, r1))
  {
    Dot3Symmetric(r1, r2);
    PerpendicularToBoth(r2, r0, r1);
    LagrangeParallel(r2, Cross3(r0, r1));
    LagrangePerpendicular(r0, r1);
  }

  // ---------------------------------------------------------------- scaled vectors

  lemma ScaledDot(j: real, u: Vec3, k: real, v: Vec3)
    requires Dot3(u, v) == 0.0
    ensures Dot3(Scale3(j, u), Scale3(k, v)) == 0.0
  {
    Dot3Scale(Scale3(j, u), k, v);
    Dot3Symmetric(Scale3(j, u), v);
    Dot3Scale(v, j, u);
    Dot3Symmetric(u, v);
    hide Dot3, Scale3;
  }

  lemma ScaledCross(j: real, u: Vec3, k: real, v: Vec3)
    ensures Cross3(Scale3(j, u), Scale3(k, v)) == Scale3(j, Scale3(k, Cross3(u, v)))
  {
    hide Cross3, Scale3;
    Cross3ScaleLeft(j, u, Scale3(k, v));
    Cross3ScaleRight(u, k, v);
  }

  lemma Cross3ScaleLeft(j: real, u: Vec3, v: Vec3)
    ensures Cross3(Scale3(j, u), v) == Scale3(j, Cross3(u, v))
  {
    var x := Cross3(u, v);
    assert j*x.x == j*(u.y*v.z - u.z*v.y);
    assert j*x.y == j*(u.z*v.x - u.x*v.z);
    assert j*x.z == j*(u.x*v.y - u.y*v.x);
  }

  lemma Cross3ScaleRight(u: Vec3, k: real, v: Vec3)
    ensures Cross3(u, Scale3(k, v)) == Scale3(k, Cross3(u, v))
  {
    var x := Cross3(u, v);
    assert k*x.x == k*(u.y*v.z - u.z*v.y);
    assert k*x.y == k*(u.z*v.x - u.x*v.z);
    assert k*x.z == k*(u.x*v.y - u.y*v.x);
  }

  lemma ScaledTriple(i: real, u: Vec3, j: real, v: Vec3, k: real, w: Vec3)
    ensures Dot3(Scale3(k, w), Cross3(Scale3(i, u), Scale3(j, v))) == k*(i*(j*Dot3(w, Cross3(u, v))))
  {
    var x := Cross3(u, v);
    ScaledCross(i, u, j, v);
    Dot3Symmetric(Scale3(k, w), Scale3(i, Scale3(j, x)));
    Dot3Scale(Scale3(i, Scale3(j, x)), k, w);
    Dot3Symmetric(Scale3(i, Scale3(j, x)), w);
    Dot3Scale(w, i, Scale3(j, x));
    Dot3Scale(w, j, x);
    hide Dot3, Cross3, Scale3;
  }
}
