/** Quaternions as matrices: MakeAffineQuaternion and its rotation. */
module RotationMatrix {
  import opened Vector3
  import opened Matrix4
  import opened AffineMatrix
  import Q = Quaternion

  type Quat = Q.Quat

  const E0 := Vec3(1.0, 0.0, 0.0)
  const E1 := Vec3(0.0, 1.0, 0.0)
  const E2 := Vec3(0.0, 0.0, 1.0)

  /** Scale, then rotation, then translation. */
  function MakeAffineQuaternion(q: Quat, position: Vec3, scale: Vec3): Mat4 {
    var xx, yy, zz := 2.0*q.x*q.x, 2.0*q.y*q.y, 2.0*q.z*q.z;
    var xy, yz, zx := 2.0*q.x*q.y, 2.0*q.y*q.z, 2.0*q.z*q.x;
    var wx, wy, wz := 2.0*q.w*q.x, 2.0*q.w*q.y, 2.0*q.w*q.z;
    Mat4(
      scale.x*(1.0 - yy - zz), scale.x*(xy + wz), scale.x*(zx - wy), 0.0,
      scale.y*(xy - wz), scale.y*(1.0 - xx - zz), scale.y*(yz + wx), 0.0,
      scale.z*(zx + wy), scale.z*(yz - wx), scale.z*(1.0 - xx - yy), 0.0,
      position.x, position.y, position.z, 1.0)
  }

  /** The rotation alone. */
  function Rotation(q: Quat): Mat4 {
    MakeAffineQuaternion(q, ORIGIN, UNIT_SCALE)
  }

  // ---------------------------------------------------------------- rows and rotation

  lemma AllAxes(q: Quat)
    ensures Axis(Rotation(q), 0)
      == Vec3(1.0 - 2.0*q.y*q.y - 2.0*q.z*q.z, 2.0*q.x*q.y + 2.0*q.w*q.z, 2.0*q.z*q.x - 2.0*q.w*q.y)
    ensures Axis(Rotation(q), 1)
      == Vec3(2.0*q.x*q.y - 2.0*q.w*q.z, 1.0 - 2.0*q.x*q.x - 2.0*q.z*q.z, 2.0*q.y*q.z + 2.0*q.w*q.x)
    ensures Axis(Rotation(q), 2)
      == Vec3(2.0*q.z*q.x + 2.0*q.w*q.y, 2.0*q.y*q.z - 2.0*q.w*q.x, 1.0 - 2.0*q.x*q.x - 2.0*q.y*q.y)
  {
  }

  lemma AxisCycle(q: Quat)
    ensures Axis(Rotation(Q.Cycle(q)), 0) == Q.Cycle3(Axis(Rotation(q), 1))
    ensures Axis(Rotation(Q.Cycle(q)), 1) == Q.Cycle3(Axis(Rotation(q), 2))
    ensures Axis(Rotation(Q.Cycle(q)), 2) == Q.Cycle3(Axis(Rotation(q), 0))
  {
  }

  lemma Column0(q: Quat)
    ensures Rotation(q).e00 == 1.0 - 2.0*q.y*q.y - 2.0*q.z*q.z
    ensures Rotation(q).e10 == 2.0*q.x*q.y - 2.0*q.w*q.z
    ensures Rotation(q).e20 == 2.0*q.z*q.x + 2.0*q.w*q.y
  {
  }

  lemma TransformVectorX(q: Quat, p: Vec3)
    ensures TransformVector(p, Rotation(q)).x
      == p.x*(1.0 - 2.0*q.y*q.y - 2.0*q.z*q.z) + p.y*(2.0*q.x*q.y - 2.0*q.w*q.z) + p.z*(2.0*q.z*q.x + 2.0*q.w*q.y)
  {
    var m := Rotation(q);
    hide Rotation;
    Column0(q);
    assert p.x*m.e00 == p.x*(1.0 - 2.0*q.y*q.y - 2.0*q.z*q.z);
    assert p.y*m.e10 == p.y*(2.0*q.x*q.y - 2.0*q.w*q.z);
    assert p.z*m.e20 == p.z*(2.0*q.z*q.x + 2.0*q.w*q.y);
  }

  lemma RotationTransformsX(q: Quat, p: Vec3)
    requires Q.NormSquared(q) == 1.0
    ensures TransformVector(p, Rotation(q)).x == Q.Rotate(q, p).x
  {
    hide Rotation, Q.Rotate, TransformVector;
    TransformVectorX(q, p);
    Q.RotateX(q, p);
    assert (q.w*q.w + q.x*q.x + q.y*q.y + q.z*q.z)*p.x == 1.0*p.x;
  }

  lemma TransformCycle(q: Quat, p: Vec3)
    ensures TransformVector(Q.Cycle3(p), Rotation(Q.Cycle(q))) == Q.Cycle3(TransformVector(p, Rotation(q)))
  {
    AxisCycle(q);
    TransformByAxes(p, Rotation(q));
    TransformByAxes(Q.Cycle3(p), Rotation(Q.Cycle(q)));
    hide Rotation, TransformVector;
  }

  /** A vector times a matrix combines the matrix's axes. */
  lemma TransformByAxes(p: Vec3, m: Mat4)
    ensures var a, b, c := Axis(m, 0), Axis(m, 1), Axis(m, 2);
      TransformVector(p, m)
        == Vec3(p.x*a.x + p.y*b.x + p.z*c.x, p.x*a.y + p.y*b.y + p.z*c.y, p.x*a.z + p.y*b.z + p.z*c.z)
  {
  }

  /** For unit quaternions the matrix transforms vectors exactly as Rotate does. */
  lemma RotationTransforms(q: Quat, p: Vec3)
    requires Q.NormSquared(q) == 1.0
    ensures TransformVector(p, Rotation(q)) == Q.Rotate(q, p)
  {
    var q', p' := Q.Cycle(q), Q.Cycle3(p);
    assert Q.NormSquared(q') == Q.NormSquared(q) == Q.NormSquared(Q.Cycle(q')) by {
      hide Rotation, Q.Rotate, TransformVector;
    }
    RotationTransformsX(q, p);
    RotationTransformsX(q', p');
    RotationTransformsX(Q.Cycle(q'), Q.Cycle3(p'));
    TransformCycle(q, p);
    TransformCycle(q', p');
    Q.RotateCycle(q, p);
    Q.RotateCycle(q', p');
    hide Rotation, Q.Rotate, TransformVector, Q.NormSquared;
  }

  lemma BasisRow(m: Mat4)
    ensures TransformVector(E0, m) == Axis(m, 0)
    ensures TransformVector(E1, m) == Axis(m, 1)
    ensures TransformVector(E2, m) == Axis(m, 2)
  {
  }

  lemma RotationOfProductRow(a: Quat, b: Quat, e: Vec3)
    requires Q.NormSquared(a) == 1.0 && Q.NormSquared(b) == 1.0
    ensures TransformVector(e, Rotation(Q.MulQ(a, b))) == TransformVector(TransformVector(e, Rotation(a)), Rotation(b))
  {
    Q.RotateProduct(a, b, e);
    RotationTransforms(Q.MulQ(a, b), e);
    RotationTransforms(a, e);
    RotationTransforms(b, Q.Rotate(a, e));
    hide Rotation, Q.Rotate, TransformVector, Q.NormSquared, Q.MulQ;
  }

  lemma RotationShape(q: Quat)
    ensures IsAffine(Rotation(q)) && Axis(Rotation(q), 3) == ORIGIN
  {
  }

  lemma SameAxes(m: Mat4, n: Mat4)
    requires IsAffine(m) && IsAffine(n)
    requires Axis(m, 0) == Axis(n, 0) && Axis(m, 1) == Axis(n, 1) && Axis(m, 2) == Axis(n, 2)
      && Axis(m, 3) == Axis(n, 3)
    ensures m == n
  {
  }

  lemma AffineProductAxes(a: Mat4, b: Mat4)
    requires IsAffine(a) && IsAffine(b) && Axis(a, 3) == ORIGIN && Axis(b, 3) == ORIGIN
    ensures var m := Mul(a, b);
      && IsAffine(m) && Axis(m, 3) == ORIGIN
      && Axis(m, 0) == TransformVector(Axis(a, 0), b)
      && Axis(m, 1) == TransformVector(Axis(a, 1), b)
      && Axis(m, 2) == TransformVector(Axis(a, 2), b)
  {
    hide Mul, TransformVector;
    MultiplyAffineRefines(a, b);
    TransformOrigin(b);
  }

  lemma TransformOrigin(m: Mat4)
    ensures TransformVector(ORIGIN, m) == ORIGIN
  {
  }

  /** The matrix of a product of unit quaternions is the product of their matrices. */
  lemma RotationOfProduct(a: Quat, b: Quat)
    requires Q.NormSquared(a) == 1.0 && Q.NormSquared(b) == 1.0
    ensures Rotation(Q.MulQ(a, b)) == Mul(Rotation(a), Rotation(b))
  {
    var m, n, ab := Rotation(a), Rotation(b), Rotation(Q.MulQ(a, b));
    RotationOfProductRow(a, b, E0);
    RotationOfProductRow(a, b, E1);
    RotationOfProductRow(a, b, E2);
    BasisRow(m);
    BasisRow(ab);
    RotationShape(a);
    RotationShape(b);
    RotationShape(Q.MulQ(a, b));
    AffineProductAxes(m, n);
    SameAxes(ab, Mul(m, n));
    hide Rotation, TransformVector, Mul, Q.MulQ, Q.NormSquared, Axis;
  }

  lemma InverseAxis(q: Quat)
    ensures var m := Rotation(q); Axis(Rotation(Q.Inverse(q)), 0) == Vec3(Axis(m, 0).x, Axis(m, 1).x, Axis(m, 2).x)
  {
  }

  lemma RotationOfInverse(q: Quat)
    ensures Rotation(Q.Inverse(q)) == InverseRotTrans(Rotation(q))
  {
    var m, q' := Rotation(q), Q.Inverse(q);
    RotationShape(q);
    RotationShape(q');
    InverseAxis(q);
    InverseAxis(Q.Cycle(q));
    InverseAxis(Q.Cycle(Q.Cycle(q)));
    AxisCycle(q);
    AxisCycle(Q.Cycle(q));
    AxisCycle(q');
    AxisCycle(Q.Cycle(q'));
    hide Rotation;
    SameAxes(Rotation(q'), InverseRotTrans(m));
  }

  /** The matrix of a unit quaternion is a proper rotation: orthonormal axes, determinant 1. */
  lemma RotationIsProper(q: Quat)
    requires Q.NormSquared(q) == 1.0
    ensures OrthonormalAxes(Rotation(q))
    ensures Cross3(Axis(Rotation(q), 0), Axis(Rotation(q), 1)) == Axis(Rotation(q), 2)
    ensures DetUpper(Rotation(q)) == 1.0
  {
    hide Rotation, Q.Rotate, Q.NormSquared, DetUpper, TransformVector, Dot3, Cross3, Axis;
    var m := Rotation(q);
    BasisProducts();
    BasisRow(m);
    RotationTransforms(q, E0);
    RotationTransforms(q, E1);
    RotationTransforms(q, E2);
    Q.RotateKeepsProducts(q, E0, E0);
    Q.RotateKeepsProducts(q, E1, E1);
    Q.RotateKeepsProducts(q, E2, E2);
    Q.RotateKeepsProducts(q, E0, E1);
    Q.RotateKeepsProducts(q, E1, E2);
    Q.RotateKeepsProducts(q, E2, E0);
    DetUpperIsTriple(m);
    Cross3Cyclic(Axis(m, 0), Axis(m, 1), Axis(m, 2));
  }

  lemma BasisProducts()
    ensures Cross3(E0, E1) == E2 && Dot3(E0, E1) == Dot3(E1, E2) == Dot3(E2, E0) == 0.0
    ensures Dot3(E0, E0) == Dot3(E1, E1) == Dot3(E2, E2) == 1.0
  {
  }

  /** ... and the matrix of the inverse quaternion is its inverse. */
  lemma RotationOfInverseIsInverse(q: Quat)
    requires Q.NormSquared(q) == 1.0
    ensures Det(Rotation(q)) != 0.0 && Rotation(Q.Inverse(q)) == Inverse(Rotation(q))
  {
    RotationIsProper(q);
    RotationShape(q);
    RotationOfInverse(q);
    hide Rotation, Q.Inverse, Det, Inverse, InverseRotTrans;
    InverseRotTransRefines(Rotation(q));
  }
}
