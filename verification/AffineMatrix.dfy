/**
 * The specialised inverses and products for affine matrices: each agrees with the general one
 * on the matrices it is meant for.
 */
module AffineMatrix {
  import opened Matrix4
  import opened Vector3

  /** The last column of an affine matrix. */
  predicate IsAffine(m: Mat4) {
    m.e03 == 0.0 && m.e13 == 0.0 && m.e23 == 0.0 && m.e33 == 1.0
  }

  function Axis(m: Mat4, i: Index): Vec3 {
    Vec3(Row(m, i).x, Row(m, i).y, Row(m, i).z)
  }

  /** The determinant of the upper-left 3x3 matrix, as InverseAffine computes it. */
  function DetUpper(m: Mat4): real {
    m.e00*(m.e11*m.e22 - m.e12*m.e21) + m.e01*(m.e12*m.e20 - m.e10*m.e22) + m.e02*(m.e10*m.e21 - m.e11*m.e20)
  }

  /** Rows of the upper-left 3x3 matrix are pairwise orthogonal and none is zero. */
  predicate OrthogonalAxes(m: Mat4) {
    && Dot3(Axis(m, 0), Axis(m, 1)) == 0.0 && Dot3(Axis(m, 1), Axis(m, 2)) == 0.0 && Dot3(Axis(m, 2), Axis(m, 0)) == 0.0
    && Dot3(Axis(m, 0), Axis(m, 0)) != 0.0 && Dot3(Axis(m, 1), Axis(m, 1)) != 0.0 && Dot3(Axis(m, 2), Axis(m, 2)) != 0.0
  }

  predicate OrthonormalAxes(m: Mat4) {
    && OrthogonalAxes(m)
    && Dot3(Axis(m, 0), Axis(m, 0)) == 1.0 && Dot3(Axis(m, 1), Axis(m, 1)) == 1.0 && Dot3(Axis(m, 2), Axis(m, 2)) == 1.0
  }

  // ---------------------------------------------------------------- the three inverses

  /** Completes an inverted 3x3 matrix with the inverted translation and an affine column. */
  function WithTranslation(m: Mat4, o: Mat4): Mat4 {
    o.(e03 := 0.0, e13 := 0.0, e23 := 0.0,
       e30 := -m.e30*o.e00 - m.e31*o.e10 - m.e32*o.e20,
       e31 := -m.e30*o.e01 - m.e31*o.e11 - m.e32*o.e21,
       e32 := -m.e30*o.e02 - m.e31*o.e12 - m.e32*o.e22,
       e33 := 1.0)
  }

  /** A matrix with the given columns in its upper-left 3x3 part. */
  function FromColumns3(a: Vec3, b: Vec3, c: Vec3): Mat4 {
    IDENTITY.(
      e00 := a.x, e01 := b.x, e02 := c.x,
      e10 := a.y, e11 := b.y, e12 := c.y,
      e20 := a.z, e21 := b.z, e22 := c.z)
  }

  function InverseAffine(m: Mat4): Mat4
    requires DetUpper(m) != 0.0
  {
    var k, r0, r1, r2 := 1.0 / DetUpper(m), Axis(m, 0), Axis(m, 1), Axis(m, 2);
    WithTranslation(m, FromColumns3(Scale3(k, Cross3(r1, r2)), Scale3(k, Cross3(r2, r0)), Scale3(k, Cross3(r0, r1))))
  }

  /** What the original asserts of the squared scales before dividing by them. */
  predicate NonZeroAxes(m: Mat4) {
    Dot3(Axis(m, 0), Axis(m, 0)) != 0.0 && Dot3(Axis(m, 1), Axis(m, 1)) != 0.0 && Dot3(Axis(m, 2), Axis(m, 2)) != 0.0
  }

  function InverseRotTransScale(m: Mat4): Mat4
    requires NonZeroAxes(m)
  {
    var r0, r1, r2 := Axis(m, 0), Axis(m, 1), Axis(m, 2);
    WithTranslation(m,
      FromColumns3(Scale3(1.0 / Dot3(r0, r0), r0), Scale3(1.0 / Dot3(r1, r1), r1), Scale3(1.0 / Dot3(r2, r2), r2)))
  }

  function InverseRotTrans(m: Mat4): Mat4 {
    WithTranslation(m, FromColumns3(Axis(m, 0), Axis(m, 1), Axis(m, 2)))
  }

  // ---------------------------------------------------------------- agreement with Inverse

  lemma DetOfAffine(m: Mat4)
    requires IsAffine(m)
    ensures Det(m) == DetUpper(m)
  {
    var r1, r2, r3 := Row(m, 1), Row(m, 2), Row(m, 3);
    CofactorRowIsCross(m);
    assert Det(m) == m.e00*Cross(r1, r2, r3).x + m.e01*Cross(r1, r2, r3).y + m.e02*Cross(r1, r2, r3).z;
  }

  /** Row i of m times column j of o, upper-left 3x3 matrices only. */
  function Upper(m: Mat4, o: Mat4, i: Index, j: Index): real {
    Dot3(Axis(m, i), Vec3(Col(o, j).x, Col(o, j).y, Col(o, j).z))
  }

  lemma WithTranslationCol(m: Mat4, o: Mat4, j: Index)
    ensures var c := Col(o, j);
      Col(WithTranslation(m, o), j) ==
        if j == 3 then Vec4(0.0, 0.0, 0.0, 1.0) else Vec4(c.x, c.y, c.z, -m.e30*c.x - m.e31*c.y - m.e32*c.z)
  {
    match j case 0 => case 1 => case 2 => case 3 =>
  }

  lemma AffineEntry(u: Vec4, c: Vec4, v: Vec4, i: Index, j: Index)
    requires u.w == if i == 3 then 1.0 else 0.0
    requires j == 3 ==> v == Vec4(0.0, 0.0, 0.0, 1.0)
    requires j < 3 ==> v.x == c.x && v.y == c.y && v.z == c.z
    requires i == 3 && j < 3 ==> v.w == -u.x*c.x - u.y*c.y - u.z*c.z
    requires i < 3 && j < 3 ==> u.x*c.x + u.y*c.y + u.z*c.z == if i == j then 1.0 else 0.0
    ensures Dot(u, v) == if i == j then 1.0 else 0.0
  {
  }

  lemma AffineRow(m: Mat4, i: Index)
    requires IsAffine(m)
    ensures Row(m, i).w == if i == 3 then 1.0 else 0.0
  {
    match i case 0 => case 1 => case 2 => case 3 =>
  }

  lemma UpperEntry(m: Mat4, o: Mat4, i: Index, j: Index)
    requires IsAffine(m)
    requires i < 3 && j < 3 ==> Upper(m, o, i, j) == if i == j then 1.0 else 0.0
    ensures Dot(Row(m, i), Col(WithTranslation(m, o), j)) == if i == j then 1.0 else 0.0
  {
    WithTranslationCol(m, o, j);
    AffineRow(m, i);
    AffineEntry(Row(m, i), Col(o, j), Col(WithTranslation(m, o), j), i, j);
  }

  /** Inverting the upper-left 3x3 matrix is all there is to inverting an affine matrix. */
  lemma UpperInverseSuffices(m: Mat4, o: Mat4)
    requires IsAffine(m)
    requires forall i: Index, j: Index {:trigger Upper(m, o, i, j)} :: i < 3 && j < 3 ==>
      Upper(m, o, i, j) == if i == j then 1.0 else 0.0
    ensures Mul(m, WithTranslation(m, o)) == IDENTITY
  {
    var inv := WithTranslation(m, o);
    forall i: Index, j: Index ensures At(Mul(m, inv), i, j) == At(IDENTITY, i, j) {
      MulAt(m, inv, i, j);
      IdentityAt(i, j);
      UpperEntry(m, o, i, j);
    }
    SameEntries(Mul(m, inv), IDENTITY);
  }

  lemma UpperOfColumns(m: Mat4, a: Vec3, b: Vec3, c: Vec3, i: Index, j: Index)
    requires i < 3 && j < 3
    ensures Upper(m, FromColumns3(a, b, c), i, j) == Dot3(Axis(m, i), if j == 0 then a else if j == 1 then b else c)
  {
  }

  lemma DetUpperIsTriple(m: Mat4)
    ensures DetUpper(m) == Dot3(Axis(m, 0), Cross3(Axis(m, 1), Axis(m, 2)))
  {
    Triple(Axis(m, 0), Axis(m, 1), Axis(m, 2));
  }

  /** On every invertible affine matrix the affine inverse is the general inverse. */
  lemma InverseAffineRefines(m: Mat4)
    requires IsAffine(m) && DetUpper(m) != 0.0
    ensures Det(m) != 0.0 && InverseAffine(m) == Inverse(m)
  {
    hide Dot3, Scale3, Cross3, Det, DetUpper, Upper, Mul;
    var d := DetUpper(m);
    var k, r0, r1, r2 := 1.0 / d, Axis(m, 0), Axis(m, 1), Axis(m, 2);
    var p, q, r := Cross3(r1, r2), Cross3(r2, r0), Cross3(r0, r1);
    var o := FromColumns3(Scale3(k, p), Scale3(k, q), Scale3(k, r));
    DetUpperIsTriple(m);
    CrossTable(r0, r1, r2, d);
    forall i: Index, j: Index {:trigger Upper(m, o, i, j)} | i < 3 && j < 3
      ensures Upper(m, o, i, j) == if i == j then 1.0 else 0.0
    {
      var c := if j == 0 then p else if j == 1 then q else r;
      UpperOfColumns(m, Scale3(k, p), Scale3(k, q), Scale3(k, r), i, j);
      Dot3Scale(Axis(m, i), k, c);
      assert Dot3(Axis(m, i), c) == if i == j then d else 0.0;
    }
    UpperInverseSuffices(m, o);
    DetOfAffine(m);
    RightInverseIsInverse(m, InverseAffine(m));
  }

  /** With orthogonal non-zero axes, the scaled transpose is the general inverse. */
  lemma InverseRotTransScaleRefines(m: Mat4)
    requires IsAffine(m) && OrthogonalAxes(m)
    ensures Det(m) != 0.0 && InverseRotTransScale(m) == Inverse(m)
  {
    hide Dot3, Scale3, Cross3, Det, DetUpper, Upper, Mul;
    var r0, r1, r2 := Axis(m, 0), Axis(m, 1), Axis(m, 2);
    var kx, ky, kz := 1.0 / Dot3(r0, r0), 1.0 / Dot3(r1, r1), 1.0 / Dot3(r2, r2);
    var o := FromColumns3(Scale3(kx, r0), Scale3(ky, r1), Scale3(kz, r2));
    forall i: Index, j: Index {:trigger Upper(m, o, i, j)} | i < 3 && j < 3
      ensures Upper(m, o, i, j) == if i == j then 1.0 else 0.0
    {
      UpperOfColumns(m, Scale3(kx, r0), Scale3(ky, r1), Scale3(kz, r2), i, j);
      var k, c := if j == 0 then kx else if j == 1 then ky else kz, if j == 0 then r0 else if j == 1 then r1 else r2;
      Dot3Scale(Axis(m, i), k, c);
      Dot3Symmetric(Axis(m, i), c);
      assert k * Dot3(c, c) == 1.0;
    }
    UpperInverseSuffices(m, o);
    DetOfOrthogonal(r0, r1, r2);
    Cross3Cyclic(r0, r1, r2);
    DetUpperIsTriple(m);
    DetOfAffine(m);
    RightInverseIsInverse(m, InverseRotTransScale(m));
  }

  /** With orthonormal axes, the transpose is the general inverse. */
  lemma InverseRotTransRefines(m: Mat4)
    requires IsAffine(m) && OrthonormalAxes(m)
    ensures Det(m) != 0.0 && InverseRotTrans(m) == Inverse(m)
  {
    InverseRotTransScaleRefines(m);
    var r0, r1, r2 := Axis(m, 0), Axis(m, 1), Axis(m, 2);
    assert Scale3(1.0 / 1.0, r0) == r0 && Scale3(1.0 / 1.0, r1) == r1 && Scale3(1.0 / 1.0, r2) == r2;
  }

  lemma ProductUpper(m: Mat4, o: Mat4, i: Index, j: Index)
    requires IsAffine(m) && i < 3 && j < 3
    ensures At(Mul(m, WithTranslation(m, o)), i, j) == Upper(m, o, i, j)
  {
    MulAt(m, WithTranslation(m, o), i, j);
    WithTranslationCol(m, o, j);
    AffineRow(m, i);
    assert Col(WithTranslation(m, o), j).w * 0.0 == 0.0;
  }

  /** ... and only then: on an invertible affine matrix the test is exact. */
  lemma InverseRotTransExact(m: Mat4)
    requires IsAffine(m) && Det(m) != 0.0
    ensures InverseRotTrans(m) == Inverse(m) <==> OrthonormalAxes(m)
  {
    if OrthonormalAxes(m) {
      InverseRotTransRefines(m);
    }
    if InverseRotTrans(m) == Inverse(m) {
      InverseIsInverse(m);
      TransposeInverts(m);
    }
  }

  lemma TransposeInverts(m: Mat4)
    requires IsAffine(m) && Mul(m, InverseRotTrans(m)) == IDENTITY
    ensures OrthonormalAxes(m)
  {
    var r0, r1, r2 := Axis(m, 0), Axis(m, 1), Axis(m, 2);
    forall i: Index, j: Index {:trigger At(IDENTITY, i, j)} | i < 3 && j < 3
      ensures Dot3(Axis(m, i), if j == 0 then r0 else if j == 1 then r1 else r2) == At(IDENTITY, i, j)
    {
      ProductUpper(m, FromColumns3(r0, r1, r2), i, j);
      UpperOfColumns(m, r0, r1, r2, i, j);
    }
    assert Dot3(r0, r0) == At(IDENTITY, 0, 0) && Dot3(r1, r1) == At(IDENTITY, 1, 1)
      && Dot3(r2, r2) == At(IDENTITY, 2, 2);
    assert Dot3(r0, r1) == At(IDENTITY, 0, 1) && Dot3(r1, r2) == At(IDENTITY, 1, 2)
      && Dot3(r2, r0) == At(IDENTITY, 2, 0);
  }

  // ---------------------------------------------------------------- affine product

  /** A row times the upper-left 3x3 matrix. */
  function TransformVector(v: Vec3, m: Mat4): Vec3 {
    Vec3(v.x*m.e00 + v.y*m.e10 + v.z*m.e20, v.x*m.e01 + v.y*m.e11 + v.z*m.e21, v.x*m.e02 + v.y*m.e12 + v.z*m.e22)
  }

  /** The product that takes the last columns for granted. */
  function MultiplyAffine(a: Mat4, b: Mat4): Mat4 {
    var r0, r1 := TransformVector(Axis(a, 0), b), TransformVector(Axis(a, 1), b);
    var r2, r3 := TransformVector(Axis(a, 2), b), TransformVector(Axis(a, 3), b);
    Mat4(
      r0.x, r0.y, r0.z, 0.0,
      r1.x, r1.y, r1.z, 0.0,
      r2.x, r2.y, r2.z, 0.0,
      r3.x + b.e30, r3.y + b.e31, r3.z + b.e32, 1.0)
  }

  lemma AffineRowTransform(u: Vec4, m: Mat4)
    requires IsAffine(m)
    ensures var r := TransformVector(Vec3(u.x, u.y, u.z), m);
      && (u.w == 0.0 ==> Transform(u, m) == Vec4(r.x, r.y, r.z, 0.0))
      && (u.w == 1.0 ==> Transform(u, m) == Vec4(r.x + m.e30, r.y + m.e31, r.z + m.e32, 1.0))
  {
  }

  lemma MultiplyAffineRefines(a: Mat4, b: Mat4)
    requires IsAffine(a) && IsAffine(b)
    ensures MultiplyAffine(a, b) == Mul(a, b) && IsAffine(Mul(a, b))
  {
    AffineRowTransform(Row(a, 0), b);
    AffineRowTransform(Row(a, 1), b);
    AffineRowTransform(Row(a, 2), b);
    AffineRowTransform(Row(a, 3), b);
  }
}
