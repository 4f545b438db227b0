/** The matrix object: its in-place operations against the by-value ones. */
module MatrixInPlace {
  import opened Matrix4
  import opened AffineMatrix
  import opened RealMath
  import opened Vector3
  import F = Frames
  import G = GramSchmidt
  import R = RotationMatrix
  import D = AffineDecomposition
  import B = RotationRebuild
  import Q = Quaternion

  /** The binary product as the original spells it out. */
  method Multiply(a: Mat4, b: Mat4) returns (out: Mat4)
    ensures out == Mul(a, b)
  {
    out := Mat4(
      a.e00*b.e00 + a.e01*b.e10 + a.e02*b.e20 + a.e03*b.e30,
      a.e00*b.e01 + a.e01*b.e11 + a.e02*b.e21 + a.e03*b.e31,
      a.e00*b.e02 + a.e01*b.e12 + a.e02*b.e22 + a.e03*b.e32,
      a.e00*b.e03 + a.e01*b.e13 + a.e02*b.e23 + a.e03*b.e33,
      a.e10*b.e00 + a.e11*b.e10 + a.e12*b.e20 + a.e13*b.e30,
      a.e10*b.e01 + a.e11*b.e11 + a.e12*b.e21 + a.e13*b.e31,
      a.e10*b.e02 + a.e11*b.e12 + a.e12*b.e22 + a.e13*b.e32,
      a.e10*b.e03 + a.e11*b.e13 + a.e12*b.e23 + a.e13*b.e33,
      a.e20*b.e00 + a.e21*b.e10 + a.e22*b.e20 + a.e23*b.e30,
      a.e20*b.e01 + a.e21*b.e11 + a.e22*b.e21 + a.e23*b.e31,
      a.e20*b.e02 + a.e21*b.e12 + a.e22*b.e22 + a.e23*b.e32,
      a.e20*b.e03 + a.e21*b.e13 + a.e22*b.e23 + a.e23*b.e33,
      a.e30*b.e00 + a.e31*b.e10 + a.e32*b.e20 + a.e33*b.e30,
      a.e30*b.e01 + a.e31*b.e11 + a.e32*b.e21 + a.e33*b.e31,
      a.e30*b.e02 + a.e31*b.e12 + a.e32*b.e22 + a.e33*b.e32,
      a.e30*b.e03 + a.e31*b.e13 + a.e32*b.e23 + a.e33*b.e33);
  }

  /** One row of the in-place product: the last entry is overwritten before the first three. */
  method MulAssignRow(row: Vec4, o: Mat4) returns (r: Vec4)
    ensures r == Transform(row, o)
  {
    r := row;
    var t0 := r.x*o.e00 + r.y*o.e10 + r.z*o.e20 + r.w*o.e30;
    var t1 := r.x*o.e01 + r.y*o.e11 + r.z*o.e21 + r.w*o.e31;
    var t2 := r.x*o.e02 + r.y*o.e12 + r.z*o.e22 + r.w*o.e32;
    r := r.(w := r.x*o.e03 + r.y*o.e13 + r.z*o.e23 + r.w*o.e33);
    r := r.(x := t0);
    r := r.(y := t1);
    r := r.(z := t2);
  }

  method MulAssignAxis(row: Vec3, o: Mat4) returns (r: Vec3)
    ensures r == TransformVector(row, o)
  {
    r := row;
    var t0 := r.x*o.e00 + r.y*o.e10 + r.z*o.e20;
    var t1 := r.x*o.e01 + r.y*o.e11 + r.z*o.e21;
    r := r.(z := r.x*o.e02 + r.y*o.e12 + r.z*o.e22);
    r := r.(x := t0);
    r := r.(y := t1);
  }

  method ScaleAxis(k: real, v: Vec3) returns (r: Vec3)
    ensures r == Scale3(k, v)
  {
    r := Vec3(v.x*k, v.y*k, v.z*k);
  }

  lemma DoubledProduct(u: real, v: real)
    ensures u*(2.0*v) == 2.0*u*v
  {
  }

  method RotationRows(q: Q.Quat) returns (a: Vec3, b: Vec3, c: Vec3)
    ensures a == Axis(R.Rotation(q), 0) && b == Axis(R.Rotation(q), 1) && c == Axis(R.Rotation(q), 2)
  {
    R.AllAxes(q);
    hide R.Rotation;
    var xx, yy, zz := 2.0*q.x, 2.0*q.y, 2.0*q.z;
    var xy, yz, zx := xx*q.y, yy*q.z, zz*q.x;
    var wx, wy, wz := q.w*xx, q.w*yy, q.w*zz;
    xx, yy, zz := xx*q.x, yy*q.y, zz*q.z;
    DoubledProduct(q.w, q.x);
    DoubledProduct(q.w, q.y);
    DoubledProduct(q.w, q.z);
    a := Vec3(1.0 - yy - zz, xy + wz, zx - wy);
    b := Vec3(xy - wz, 1.0 - xx - zz, yz + wx);
    c := Vec3(zx + wy, yz - wx, 1.0 - xx - yy);
  }

  function Times(a: real, b: real): real {
    a*b
  }

  function Reciprocal(d: real): real
    requires d != 0.0
  {
    0.5 / d
  }

  lemma ExtractIs(sqrt: real -> real, r0: Vec3, r1: Vec3, r2: Vec3)
    requires IsSqrt(sqrt)
    ensures var d := sqrt(D.DivisorSquared(r0, r1, r2));
      d >= 1.0 && D.Extract(sqrt, r0, r1, r2) ==
        var k := Reciprocal(d);
        match D.ChoosePivot(r0, r1, r2)
        case ByW => Q.Quat(Times(0.5, d), Times(r1.z - r2.y, k), Times(r2.x - r0.z, k), Times(r0.y - r1.x, k))
        case ByX => Q.Quat(Times(r1.z - r2.y, k), Times(0.5, d), Times(r0.y + r1.x, k), Times(r2.x + r0.z, k))
        case ByY => Q.Quat(Times(r2.x - r0.z, k), Times(r0.y + r1.x, k), Times(0.5, d), Times(r1.z + r2.y, k))
        case ByZ => Q.Quat(Times(r0.y - r1.x, k), Times(r2.x + r0.z, k), Times(r1.z + r2.y, k), Times(0.5, d))
  {
    D.DivisorAtLeastOne(sqrt, r0, r1, r2);
    hide IsSqrt, D.DivisorSquared, D.ChoosePivot;
  }

  method Product(a: real, b: real) returns (p: real)
    ensures p == Times(a, b)
  {
    p := a*b;
  }

  /** The branches of the decomposition, and of the quaternion's constructor from a matrix. */
  method ExtractRotation(sqrt: real -> real, r0: Vec3, r1: Vec3, r2: Vec3) returns (q: Q.Quat)
    requires IsSqrt(sqrt)
    ensures q == D.Extract(sqrt, r0, r1, r2)
  {
    ExtractIs(sqrt, r0, r1, r2);
    hide IsSqrt, Times, Reciprocal, D.Extract;
    var trace := r0.x + r1.y + r2.z;
    if trace > 0.0 {
      var cosAng := sqrt(trace + 1.0);
      q := FromPivot(cosAng, r1.z - r2.y, r2.x - r0.z, r0.y - r1.x);
    } else if r0.x > r1.y && r0.x > r2.z {
      var maxAxis := sqrt(r0.x - r1.y - r2.z + 1.0);
      var p := FromPivot(maxAxis, r0.y + r1.x, r2.x + r0.z, r1.z - r2.y);
      q := Q.Quat(p.z, p.w, p.x, p.y);
    } else if r0.x <= r1.y && r1.y > r2.z {
      var maxAxis := sqrt(r1.y - r2.z - r0.x + 1.0);
      var p := FromPivot(maxAxis, r1.z + r2.y, r0.y + r1.x, r2.x - r0.z);
      q := Q.Quat(p.z, p.y, p.w, p.x);
    } else {
      var maxAxis := sqrt(r2.z - r0.x - r1.y + 1.0);
      var p := FromPivot(maxAxis, r2.x + r0.z, r1.z + r2.y, r0.y - r1.x);
      q := Q.Quat(p.z, p.x, p.y, p.w);
    }
  }

  /** Half the divisor, and the other three components divided by twice it. */
  method FromPivot(d: real, first: real, second: real, third: real) returns (q: Q.Quat)
    requires d >= 1.0
    ensures q == Q.Quat(Times(0.5, d), Times(first, Reciprocal(d)), Times(second, Reciprocal(d)),
      Times(third, Reciprocal(d)))
  {
    hide Times;
    var half := Product(0.5, d);
    var k := 0.5 / d;
    var x := Product(first, k);
    var y := Product(second, k);
    var z := Product(third, k);
    q := Q.Quat(half, x, y, z);
  }

  /** What in-place operations that leave the last column alone make of a result. */
  function KeepColumn(m: Mat4, o: Mat4): Mat4 {
    o.(e03 := m.e03, e13 := m.e13, e23 := m.e23, e33 := m.e33)
  }

  /** a has the upper 3x3 part of o, and the last row of m. */
  predicate Upper3(m: Mat4, a: Mat4, o: Mat4) {
    && a.e00 == o.e00 && a.e01 == o.e01 && a.e02 == o.e02
    && a.e10 == o.e10 && a.e11 == o.e11 && a.e12 == o.e12
    && a.e20 == o.e20 && a.e21 == o.e21 && a.e22 == o.e22
    && a.e30 == m.e30 && a.e31 == m.e31 && a.e32 == m.e32
  }

  lemma SameUpper(m: Mat4, a: Mat4, o: Mat4)
    requires Upper3(m, a, o)
    ensures WithTranslation(a, a) == WithTranslation(m, o)
  {
  }

  lemma ScaledTransposed(m: Mat4, a: Mat4, kx: real, ky: real, kz: real)
    requires a == m.(
      e00 := Times(m.e00, kx), e01 := Times(m.e10, ky), e02 := Times(m.e20, kz),
      e10 := Times(m.e01, kx), e11 := Times(m.e11, ky), e12 := Times(m.e21, kz),
      e20 := Times(m.e02, kx), e21 := Times(m.e12, ky), e22 := Times(m.e22, kz))
    ensures Upper3(m, a, FromColumns3(Scale3(kx, Axis(m, 0)), Scale3(ky, Axis(m, 1)), Scale3(kz, Axis(m, 2))))
  {
  }

  /** A matrix that its methods update entry by entry. */
  class Matrix4x4 {
    var m: Mat4

    constructor (m: Mat4)
      ensures this.m == m
    {
      this.m := m;
    }

    /** Row by row, unless the matrix multiplies itself. */
    method MulAssign(o: Matrix4x4)
      modifies this
      ensures m == Mul(old(m), old(o.m))
    {
      if this == o {
        m := Multiply(o.m, o.m);
      } else {
        var r := MulAssignRow(Row(m, 0), o.m);
        m := m.(e00 := r.x, e01 := r.y, e02 := r.z, e03 := r.w);
        r := MulAssignRow(Row(m, 1), o.m);
        m := m.(e10 := r.x, e11 := r.y, e12 := r.z, e13 := r.w);
        r := MulAssignRow(Row(m, 2), o.m);
        m := m.(e20 := r.x, e21 := r.y, e22 := r.z, e23 := r.w);
        r := MulAssignRow(Row(m, 3), o.m);
        m := m.(e30 := r.x, e31 := r.y, e32 := r.z, e33 := r.w);
      }
    }

    /** Leaves the last column alone, but resets it when the matrix multiplies itself. */
    method MultiplyAffineAssign(o: Matrix4x4)
      modifies this
      ensures var product := MultiplyAffine(old(m), old(o.m));
        m == if this == o then product else KeepColumn(old(m), product)
      ensures old(IsAffine(m) && IsAffine(o.m)) ==> m == Mul(old(m), old(o.m)) && IsAffine(m)
    {
      if IsAffine(m) && IsAffine(o.m) {
        MultiplyAffineRefines(m, o.m);
      }
      if this == o {
        m := MultiplyAffine(o.m, o.m);
      } else {
        var r := MulAssignAxis(Axis(m, 0), o.m);
        m := m.(e00 := r.x, e01 := r.y, e02 := r.z);
        r := MulAssignAxis(Axis(m, 1), o.m);
        m := m.(e10 := r.x, e11 := r.y, e12 := r.z);
        r := MulAssignAxis(Axis(m, 2), o.m);
        m := m.(e20 := r.x, e21 := r.y, e22 := r.z);
        r := MulAssignAxis(Axis(m, 3), o.m);
        m := m.(e30 := r.x + o.m.e30, e31 := r.y + o.m.e31, e32 := r.z + o.m.e32);
      }
    }

    /** The translation, negated and transformed by a 3x3 matrix that is inverted already. */
    method InvertTranslation()
      modifies this
      ensures m == KeepColumn(old(m), WithTranslation(old(m), old(m)))
    {
      var t1 := -m.e30*m.e00 - m.e31*m.e10 - m.e32*m.e20;
      var t2 := -m.e30*m.e01 - m.e31*m.e11 - m.e32*m.e21;
      m := m.(e32 := -m.e30*m.e02 - m.e31*m.e12 - m.e32*m.e22);
      m := m.(e30 := t1);
      m := m.(e31 := t2);
    }

    method TransposeUpper()
      modifies this
      ensures m == old(m).(
        e01 := old(m.e10), e10 := old(m.e01), e02 := old(m.e20), e20 := old(m.e02),
        e12 := old(m.e21), e21 := old(m.e12))
    {
      var t1;
      t1 := m.e01;
      m := m.(e01 := m.e10);
      m := m.(e10 := t1);
      t1 := m.e02;
      m := m.(e02 := m.e20);
      m := m.(e20 := t1);
      t1 := m.e12;
      m := m.(e12 := m.e21);
      m := m.(e21 := t1);
    }

    /** Swaps across the diagonal, then moves the translation; the last column stays. */
    method InvertRotTrans()
      modifies this
      ensures m == KeepColumn(old(m), InverseRotTrans(old(m)))
    {
      TransposeUpper();
      InvertTranslation();
    }

    /** Each entry takes the scale of the row it comes from as it crosses the diagonal. */
    method TransposeScaled(kx: real, ky: real, kz: real)
      modifies this
      ensures m == old(m).(
        e00 := old(Times(m.e00, kx)), e01 := old(Times(m.e10, ky)), e02 := old(Times(m.e20, kz)),
        e10 := old(Times(m.e01, kx)), e11 := old(Times(m.e11, ky)), e12 := old(Times(m.e21, kz)),
        e20 := old(Times(m.e02, kx)), e21 := old(Times(m.e12, ky)), e22 := old(Times(m.e22, kz)))
    {
      hide Times;
      var t1, p;
      p := Product(m.e00, kx);
      m := m.(e00 := p);
      p := Product(m.e11, ky);
      m := m.(e11 := p);
      p := Product(m.e22, kz);
      m := m.(e22 := p);
      t1 := m.e01;
      p := Product(m.e10, ky);
      m := m.(e01 := p);
      p := Product(t1, kx);
      m := m.(e10 := p);
      t1 := m.e02;
      p := Product(m.e20, kz);
      m := m.(e02 := p);
      p := Product(t1, kx);
      m := m.(e20 := p);
      t1 := m.e12;
      p := Product(m.e21, kz);
      m := m.(e12 := p);
      p := Product(t1, ky);
      m := m.(e21 := p);
    }

    /** Swaps with the scale factored in, then moves the translation; the last column stays. */
    method InvertRotTransScale()
      requires NonZeroAxes(m)
      modifies this
      ensures m == KeepColumn(old(m), InverseRotTransScale(old(m)))
    {
      ghost var was := m;
      var kx, ky, kz := 1.0 / Dot3(Axis(m, 0), Axis(m, 0)), 1.0 / Dot3(Axis(m, 1), Axis(m, 1)),
        1.0 / Dot3(Axis(m, 2), Axis(m, 2));
      hide Dot3;
      TransposeScaled(kx, ky, kz);
      ghost var columns := FromColumns3(Scale3(kx, Axis(was, 0)), Scale3(ky, Axis(was, 1)), Scale3(kz, Axis(was, 2)));
      ScaledTransposed(was, m, kx, ky, kz);
      SameUpper(was, m, columns);
      InvertTranslation();
    }

    /** Normalises, projects and crosses the axes one entry group at a time, then scales them. */
    method Orthogonalise3x3(sqrt: real -> real, scale: Vec3)
      requires IsSqrt(sqrt) && G.Orthogonalisable(sqrt, Axis(m, 0), Axis(m, 1))
      modifies this
      ensures m == G.Orthogonalise3x3(sqrt, old(m), scale)
    {
      hide Dot3, Scale3, Cross3, Sub3;
      F.SumOfSquares(Axis(m, 0));
      F.LengthPositive(sqrt, Axis(m, 0));
      var u := ScaleAxis(1.0 / sqrt(Dot3(Axis(m, 0), Axis(m, 0))), Axis(m, 0));
      m := m.(e00 := u.x, e01 := u.y, e02 := u.z);
      var v := Sub3(Axis(m, 1), Scale3(Dot3(Axis(m, 1), Axis(m, 0)), Axis(m, 0)));
      m := m.(e10 := v.x, e11 := v.y, e12 := v.z);
      F.SumOfSquares(Axis(m, 1));
      F.LengthPositive(sqrt, Axis(m, 1));
      v := ScaleAxis(1.0 / sqrt(Dot3(Axis(m, 1), Axis(m, 1))), Axis(m, 1));
      m := m.(e10 := v.x, e11 := v.y, e12 := v.z);
      var w := Cross3(Axis(m, 0), Axis(m, 1));
      m := m.(e20 := w.x, e21 := w.y, e22 := w.z);
      u := ScaleAxis(scale.x, Axis(m, 0));
      m := m.(e00 := u.x, e01 := u.y, e02 := u.z);
      v := ScaleAxis(scale.y, Axis(m, 1));
      m := m.(e10 := v.x, e11 := v.y, e12 := v.z);
      w := ScaleAxis(scale.z, Axis(m, 2));
      m := m.(e20 := w.x, e21 := w.y, e22 := w.z);
    }

    /** Products of the quaternion's components, then the rows, then the last column and row. */
    method MakeAffineQuaternion(q: Q.Quat, position: Vec3, scale: Vec3)
      modifies this
      ensures m == R.MakeAffineQuaternion(q, position, scale)
    {
      D.MadeAxes(q, position, scale);
      B.MadeIsAffine(q, position, scale);
      hide Scale3, R.Rotation, R.MakeAffineQuaternion;
      var a, b, c := RotationRows(q);
      a := ScaleAxis(scale.x, a);
      m := m.(e00 := a.x, e01 := a.y, e02 := a.z, e03 := 0.0);
      b := ScaleAxis(scale.y, b);
      m := m.(e10 := b.x, e11 := b.y, e12 := b.z, e13 := 0.0);
      c := ScaleAxis(scale.z, c);
      m := m.(e20 := c.x, e21 := c.y, e22 := c.z, e23 := 0.0);
      m := m.(e30 := position.x, e31 := position.y, e32 := position.z, e33 := 1.0);
      R.SameAxes(m, R.MakeAffineQuaternion(q, position, scale));
    }

    /** Scale first, then one of the four ways to the quaternion. */
    method DecomposeAffineQuaternion(sqrt: real -> real) returns (position: Vec3, rotation: Q.Quat, scale: Vec3)
      requires IsSqrt(sqrt) && D.NonSingular(m)
      ensures D.Parts(position, rotation, scale) == D.DecomposeAffineQuaternion(sqrt, m)
    {
      position := Vec3(m.e30, m.e31, m.e32);
      F.LengthPositive(sqrt, Axis(m, 0));
      F.LengthPositive(sqrt, Axis(m, 1));
      F.LengthPositive(sqrt, Axis(m, 2));
      hide Dot3, Scale3;
      scale := Vec3(F.Length(sqrt, Axis(m, 0)), F.Length(sqrt, Axis(m, 1)), F.Length(sqrt, Axis(m, 2)));
      var r0 := ScaleAxis(1.0 / scale.x, Axis(m, 0));
      var r1 := ScaleAxis(1.0 / scale.y, Axis(m, 1));
      var r2 := ScaleAxis(1.0 / scale.z, Axis(m, 2));
      rotation := ExtractRotation(sqrt, r0, r1, r2);
    }

    method InvertAffine()
      requires IsAffine(m) && DetUpper(m) != 0.0
      modifies this
      ensures Mul(old(m), m) == IDENTITY && Mul(m, old(m)) == IDENTITY
    {
      InverseAffineRefines(m);
      InverseIsInverse(m);
      m := InverseAffine(m);
    }

    method Invert()
      requires Det(m) != 0.0
      modifies this
      ensures Mul(old(m), m) == IDENTITY && Mul(m, old(m)) == IDENTITY
    {
      m := ComputeInverse(m);
    }
  }

  /**
   * The in-place inverses keep the last column where the by-value ones reset it, so the two
   * agree exactly on affine matrices.
   */
  lemma InPlaceInverseAgreesIff(m: Mat4)
    ensures KeepColumn(m, InverseRotTrans(m)) == InverseRotTrans(m) <==> IsAffine(m)
    ensures NonZeroAxes(m) ==>
      (KeepColumn(m, InverseRotTransScale(m)) == InverseRotTransScale(m) <==> IsAffine(m))
  {
    hide Dot3;
  }
}
