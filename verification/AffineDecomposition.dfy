/**
 * Taking an affine matrix apart into position, rotation quaternion and scale. The quaternion
 * constructor from a matrix uses the same extraction.
 */
module AffineDecomposition {
  import opened RealMath
  import opened Vector3
  import opened Frames
  import opened Matrix4
  import opened AffineMatrix
  import opened RotationMatrix
  import Q = Quaternion

  datatype Parts = Parts(position: Vec3, rotation: Quat, scale: Vec3)

  /** The four ways to extract a quaternion from unit axes: by w, or by the largest of x, y, z. */
  datatype Pivot = ByW | ByX | ByY | ByZ

  function ChoosePivot(r0: Vec3, r1: Vec3, r2: Vec3): Pivot {
    if r0.x + r1.y + r2.z > 0.0 then ByW
    else if r0.x > r1.y then (if r0.x > r2.z then ByX else ByZ)
    else if r1.y > r2.z then ByY
    else ByZ
  }

  /** The square of the number each branch divides by. */
  function DivisorSquared(r0: Vec3, r1: Vec3, r2: Vec3): real {
    match ChoosePivot(r0, r1, r2)
    case ByW => r0.x + r1.y + r2.z + 1.0
    case ByX => r0.x - r1.y - r2.z + 1.0
    case ByY => r1.y - r2.z - r0.x + 1.0
    case ByZ => r2.z - r0.x - r1.y + 1.0
  }

  /** Whatever the axes, the chosen branch divides by at least 1. */
  lemma DivisorAtLeastOne(sqrt: real -> real, r0: Vec3, r1: Vec3, r2: Vec3)
    requires IsSqrt(sqrt)
    ensures DivisorSquared(r0, r1, r2) >= 1.0
    ensures sqrt(DivisorSquared(r0, r1, r2)) >= 1.0
  {
    assert DivisorSquared(r0, r1, r2) >= 1.0;
    hide DivisorSquared;
    RootAtLeastOne(sqrt, DivisorSquared(r0, r1, r2));
  }

  function Extract(sqrt: real -> real, r0: Vec3, r1: Vec3, r2: Vec3): Quat
    requires IsSqrt(sqrt)
  {
    DivisorAtLeastOne(sqrt, r0, r1, r2);
    var d := sqrt(DivisorSquared(r0, r1, r2));
    var k := 0.5 / d;
    match ChoosePivot(r0, r1, r2)
    case ByW => Q.Quat(0.5*d, (r1.z - r2.y)*k, (r2.x - r0.z)*k, (r0.y - r1.x)*k)
    case ByX => Q.Quat((r1.z - r2.y)*k, 0.5*d, (r0.y + r1.x)*k, (r2.x + r0.z)*k)
    case ByY => Q.Quat((r2.x - r0.z)*k, (r0.y + r1.x)*k, 0.5*d, (r1.z + r2.y)*k)
    case ByZ => Q.Quat((r0.y - r1.x)*k, (r2.x + r0.z)*k, (r1.z + r2.y)*k, 0.5*d)
  }

  /** Non-zero scale is what the original asserts before dividing by it. */
  predicate NonSingular(m: Mat4) {
    && Dot3(Axis(m, 0), Axis(m, 0)) > 0.0
    && Dot3(Axis(m, 1), Axis(m, 1)) > 0.0
    && Dot3(Axis(m, 2), Axis(m, 2)) > 0.0
  }

  function DecomposeAffineQuaternion(sqrt: real -> real, m: Mat4): Parts
    requires IsSqrt(sqrt) && NonSingular(m)
  {
    LengthPositive(sqrt, Axis(m, 0));
    LengthPositive(sqrt, Axis(m, 1));
    LengthPositive(sqrt, Axis(m, 2));
    var scale := Vec3(Length(sqrt, Axis(m, 0)), Length(sqrt, Axis(m, 1)), Length(sqrt, Axis(m, 2)));
    var rotation := Extract(sqrt,
      Scale3(1.0 / scale.x, Axis(m, 0)), Scale3(1.0 / scale.y, Axis(m, 1)), Scale3(1.0 / scale.z, Axis(m, 2)));
    Parts(Axis(m, 3), rotation, scale)
  }

  // ---------------------------------------------------------------- extraction from a rotation

  function Negate(q: Quat): Quat {
    Q.Quat(-q.w, -q.x, -q.y, -q.z)
  }

  function SignedBy(c: real, q: Quat): Quat {
    if c > 0.0 then q else Negate(q)
  }

  lemma PivotRoot(sqrt: real -> real, a: real, c: real)
    requires IsSqrt(sqrt) && a == 4.0*Square(c)
    ensures sqrt(a) == 2.0*Abs(c)
    ensures 0.5*sqrt(a) == if c > 0.0 then c else -c
  {
    assert a == (2.0*c)*(2.0*c);
    SqrtOfSquare(sqrt, a, 2.0*c);
  }

  lemma PivotComponent(c: real, d: real, e: real, root: real)
    requires c != 0.0 && root == 2.0*Abs(c) && e == 4.0*c*d
    ensures e*(0.5 / root) == if c > 0.0 then d else -d
  {
    var k := 0.5 / root;
    assert k*root == 0.5;
    if c > 0.0 {
      assert e*k == 2.0*d*(k*(2.0*c));
    } else {
      assert e*k == -2.0*d*(k*(2.0*-c));
    }
  }

  /** The entries of a rotation matrix, combined the way the branches combine them. */
  lemma RotationEntries(q: Quat)
    ensures var a, b, c := Axis(Rotation(q), 0), Axis(Rotation(q), 1), Axis(Rotation(q), 2);
      && b.z - c.y == 4.0*q.w*q.x && c.x - a.z == 4.0*q.w*q.y && a.y - b.x == 4.0*q.w*q.z
      && a.y + b.x == 4.0*q.x*q.y && b.z + c.y == 4.0*q.y*q.z && c.x + a.z == 4.0*q.z*q.x
      && a.x - b.y - c.z + 1.0 == 4.0*q.x*q.x && b.y - c.z - a.x + 1.0 == 4.0*q.y*q.y
        && c.z - a.x - b.y + 1.0 == 4.0*q.z*q.z
      && a.x + b.y + c.z + 1.0 == 4.0 - 4.0*(q.x*q.x + q.y*q.y + q.z*q.z)
  {
  }

  function PivotValue(p: Pivot, q: Quat): real {
    match p case ByW => q.w case ByX => q.x case ByY => q.y case ByZ => q.z
  }

  /** Given the squares of the components, the branches pick one that is not zero. */
  lemma LinearPivot(r0: Vec3, r1: Vec3, r2: Vec3, ww: real, xx: real, yy: real, zz: real)
    requires ww >= 0.0 && xx >= 0.0 && yy >= 0.0 && zz >= 0.0 && ww + xx + yy + zz == 1.0
    requires r0.x == 1.0 - 2.0*yy - 2.0*zz && r1.y == 1.0 - 2.0*xx - 2.0*zz && r2.z == 1.0 - 2.0*xx - 2.0*yy
    ensures var square := match ChoosePivot(r0, r1, r2) case ByW => ww case ByX => xx case ByY => yy case ByZ => zz;
      square > 0.0 && DivisorSquared(r0, r1, r2) == 4.0*square
  {
  }

  /** The pivot of the chosen branch is not zero, and the divisor is twice its size. */
  lemma ChosenPivot(q: Quat)
    requires Q.NormSquared(q) == 1.0
    ensures var a, b, c := Axis(Rotation(q), 0), Axis(Rotation(q), 1), Axis(Rotation(q), 2);
      var v := PivotValue(ChoosePivot(a, b, c), q);
      v != 0.0 && DivisorSquared(a, b, c) == 4.0*Square(v)
  {
    hide Rotation, Axis, ChoosePivot, DivisorSquared, Square, Q.NormSquared;
    var a, b, c := Axis(Rotation(q), 0), Axis(Rotation(q), 1), Axis(Rotation(q), 2);
    Diagonal(q);
    NormAsSquares(q);
    SquareNonNegative(q.w);
    SquareNonNegative(q.x);
    SquareNonNegative(q.y);
    SquareNonNegative(q.z);
    LinearPivot(a, b, c, Square(q.w), Square(q.x), Square(q.y), Square(q.z));
    match ChoosePivot(a, b, c) case ByW => case ByX => case ByY => case ByZ =>
  }

  lemma NormAsSquares(q: Quat)
    ensures Q.NormSquared(q) == Square(q.w) + Square(q.x) + Square(q.y) + Square(q.z)
  {
  }

  lemma Diagonal(q: Quat)
    ensures Axis(Rotation(q), 0).x == 1.0 - 2.0*Square(q.y) - 2.0*Square(q.z)
    ensures Axis(Rotation(q), 1).y == 1.0 - 2.0*Square(q.x) - 2.0*Square(q.z)
    ensures Axis(Rotation(q), 2).z == 1.0 - 2.0*Square(q.x) - 2.0*Square(q.y)
  {
  }

  lemma ExtractByW(sqrt: real -> real, q: Quat)
    requires IsSqrt(sqrt) && Q.NormSquared(q) == 1.0
    requires ChoosePivot(Axis(Rotation(q), 0), Axis(Rotation(q), 1), Axis(Rotation(q), 2)) == ByW
    ensures Extract(sqrt, Axis(Rotation(q), 0), Axis(Rotation(q), 1), Axis(Rotation(q), 2)) == SignedBy(q.w, q)
  {
    hide Rotation, Axis, ChoosePivot, DivisorSquared, Square, Abs, Q.NormSquared;
    var a, b, c := Axis(Rotation(q), 0), Axis(Rotation(q), 1), Axis(Rotation(q), 2);
    var root := sqrt(DivisorSquared(a, b, c));
    ChosenPivot(q);
    RotationEntries(q);
    PivotRoot(sqrt, DivisorSquared(a, b, c), q.w);
    PivotComponent(q.w, q.x, b.z - c.y, root);
    PivotComponent(q.w, q.y, c.x - a.z, root);
    PivotComponent(q.w, q.z, a.y - b.x, root);
  }

  lemma ExtractByX(sqrt: real -> real, q: Quat)
    requires IsSqrt(sqrt) && Q.NormSquared(q) == 1.0
    requires ChoosePivot(Axis(Rotation(q), 0), Axis(Rotation(q), 1), Axis(Rotation(q), 2)) == ByX
    ensures Extract(sqrt, Axis(Rotation(q), 0), Axis(Rotation(q), 1), Axis(Rotation(q), 2)) == SignedBy(q.x, q)
  {
    hide Rotation, Axis, ChoosePivot, DivisorSquared, Square, Abs, Q.NormSquared;
    var a, b, c := Axis(Rotation(q), 0), Axis(Rotation(q), 1), Axis(Rotation(q), 2);
    var root := sqrt(DivisorSquared(a, b, c));
    ChosenPivot(q);
    RotationEntries(q);
    PivotRoot(sqrt, DivisorSquared(a, b, c), q.x);
    PivotComponent(q.x, q.w, b.z - c.y, root);
    PivotComponent(q.x, q.y, a.y + b.x, root);
    PivotComponent(q.x, q.z, c.x + a.z, root);
  }

  lemma ExtractByY(sqrt: real -> real, q: Quat)
    requires IsSqrt(sqrt) && Q.NormSquared(q) == 1.0
    requires ChoosePivot(Axis(Rotation(q), 0), Axis(Rotation(q), 1), Axis(Rotation(q), 2)) == ByY
    ensures Extract(sqrt, Axis(Rotation(q), 0), Axis(Rotation(q), 1), Axis(Rotation(q), 2)) == SignedBy(q.y, q)
  {
    hide Rotation, Axis, ChoosePivot, DivisorSquared, Square, Abs, Q.NormSquared;
    var a, b, c := Axis(Rotation(q), 0), Axis(Rotation(q), 1), Axis(Rotation(q), 2);
    var root := sqrt(DivisorSquared(a, b, c));
    ChosenPivot(q);
    RotationEntries(q);
    PivotRoot(sqrt, DivisorSquared(a, b, c), q.y);
    PivotComponent(q.y, q.w, c.x - a.z, root);
    PivotComponent(q.y, q.x, a.y + b.x, root);
    PivotComponent(q.y, q.z, b.z + c.y, root);
  }

  lemma ExtractByZ(sqrt: real -> real, q: Quat)
    requires IsSqrt(sqrt) && Q.NormSquared(q) == 1.0
    requires ChoosePivot(Axis(Rotation(q), 0), Axis(Rotation(q), 1), Axis(Rotation(q), 2)) == ByZ
    ensures Extract(sqrt, Axis(Rotation(q), 0), Axis(Rotation(q), 1), Axis(Rotation(q), 2)) == SignedBy(q.z, q)
  {
    hide Rotation, Axis, ChoosePivot, DivisorSquared, Square, Abs, Q.NormSquared;
    var a, b, c := Axis(Rotation(q), 0), Axis(Rotation(q), 1), Axis(Rotation(q), 2);
    var root := sqrt(DivisorSquared(a, b, c));
    ChosenPivot(q);
    RotationEntries(q);
    PivotRoot(sqrt, DivisorSquared(a, b, c), q.z);
    PivotComponent(q.z, q.w, a.y - b.x, root);
    PivotComponent(q.z, q.x, c.x + a.z, root);
    PivotComponent(q.z, q.y, b.z + c.y, root);
  }

  /** Extracting from the matrix of a unit quaternion gives that quaternion or its negative. */
  lemma ExtractRotation(sqrt: real -> real, q: Quat)
    requires IsSqrt(sqrt) && Q.NormSquared(q) == 1.0
    ensures var a, b, c := Axis(Rotation(q), 0), Axis(Rotation(q), 1), Axis(Rotation(q), 2);
      Extract(sqrt, a, b, c) == SignedBy(PivotValue(ChoosePivot(a, b, c), q), q)
  {
    hide Rotation, Axis, ChoosePivot, Extract, Q.NormSquared;
    match ChoosePivot(Axis(Rotation(q), 0), Axis(Rotation(q), 1), Axis(Rotation(q), 2))
    case ByW => ExtractByW(sqrt, q);
    case ByX => ExtractByX(sqrt, q);
    case ByY => ExtractByY(sqrt, q);
    case ByZ => ExtractByZ(sqrt, q);
  }

  // ---------------------------------------------------------------- round trip

  predicate Positive(v: Vec3) {
    v.x > 0.0 && v.y > 0.0 && v.z > 0.0
  }

  lemma MadeAxes(q: Quat, position: Vec3, scale: Vec3)
    ensures var m, r := MakeAffineQuaternion(q, position, scale), Rotation(q);
      && Axis(m, 0) == Scale3(scale.x, Axis(r, 0)) && Axis(m, 1) == Scale3(scale.y, Axis(r, 1))
      && Axis(m, 2) == Scale3(scale.z, Axis(r, 2)) && Axis(m, 3) == position
  {
  }

  lemma ScaledUnit(sqrt: real -> real, k: real, v: Vec3)
    requires IsSqrt(sqrt) && k != 0.0 && Dot3(v, v) == 1.0
    ensures Dot3(Scale3(k, v), Scale3(k, v)) > 0.0
    ensures Length(sqrt, Scale3(k, v)) == Abs(k)
    ensures k > 0.0 ==> Scale3(1.0 / k, Scale3(k, v)) == v
  {
    Dot3Scale(Scale3(k, v), k, v);
    Dot3Symmetric(Scale3(k, v), v);
    Dot3Scale(v, k, v);
    assert Scale3(1.0 / k, Scale3(k, v)) == v by {
      Unscale(k, v.x);
      Unscale(k, v.y);
      Unscale(k, v.z);
    }
    hide Scale3, Dot3;
    var n := Dot3(Scale3(k, v), Scale3(k, v));
    assert n == k*k;
    SquareNonNegative(k);
    SqrtOfSquare(sqrt, n, k);
  }

  lemma Unscale(k: real, a: real)
    requires k != 0.0
    ensures (1.0 / k)*(k*a) == a
  {
    assert (1.0 / k)*(k*a) == ((1.0 / k)*k)*a;
  }

  /**
   * Decomposing what MakeAffineQuaternion built gives back the position, the scale exactly when
   * all its components are positive, and then the quaternion up to sign.
   */
  lemma DecomposeMade(sqrt: real -> real, q: Quat, position: Vec3, scale: Vec3)
    requires IsSqrt(sqrt) && Q.NormSquared(q) == 1.0
    requires scale.x != 0.0 && scale.y != 0.0 && scale.z != 0.0
    ensures var m := MakeAffineQuaternion(q, position, scale);
      && NonSingular(m)
      && var parts := DecomposeAffineQuaternion(sqrt, m);
      && parts.position == position
      && (parts.scale == scale <==> Positive(scale))
      && (Positive(scale) ==> parts.rotation == q || parts.rotation == Negate(q))
  {
    var m, r := MakeAffineQuaternion(q, position, scale), Rotation(q);
    MadeAxes(q, position, scale);
    RotationIsProper(q);
    hide MakeAffineQuaternion, Rotation, Axis, Dot3, Scale3, Extract, Length, Q.NormSquared, DetUpper, Cross3;
    ScaledUnit(sqrt, scale.x, Axis(r, 0));
    ScaledUnit(sqrt, scale.y, Axis(r, 1));
    ScaledUnit(sqrt, scale.z, Axis(r, 2));
    if Positive(scale) {
      ExtractRotation(sqrt, q);
    }
  }
}
