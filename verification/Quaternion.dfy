/**
 * Quaternions over exact reals: the product and the rotation of vectors. The product q1*q2 means
 * q1 first, then q2, like the matrix product.
 */
module Quaternion {
  import opened Vector3
  import opened Matrix4

  datatype Quat = Quat(w: real, x: real, y: real, z: real)

  const ONE := Quat(1.0, 0.0, 0.0, 0.0)

  function Vector(q: Quat): Vec3 {
    Vec3(q.x, q.y, q.z)
  }

  function FromVector(w: real, v: Vec3): Quat {
    Quat(w, v.x, v.y, v.z)
  }

  function NormSquared(q: Quat): real {
    q.w*q.w + q.x*q.x + q.y*q.y + q.z*q.z
  }

  function MulQ(q1: Quat, q2: Quat): Quat {
    var v1, v2 := Vector(q1), Vector(q2);
    FromVector(q1.w*q2.w - Dot3(v1, v2), Add3(Add3(Scale3(q1.w, v2), Scale3(q2.w, v1)), Cross3(v2, v1)))
  }

  /** What the original calls the inverse. */
  function Inverse(q: Quat): Quat {
    Quat(q.w, -q.x, -q.y, -q.z)
  }

  function ScaleQ(k: real, q: Quat): Quat {
    Quat(k*q.w, k*q.x, k*q.y, k*q.z)
  }

  function Rotate(q: Quat, p: Vec3): Vec3 {
    var v, tmp := Vector(q), 2.0*q.w;
    Add3(Add3(Scale3(tmp*q.w - 1.0, p), Scale3(2.0*Dot3(v, p), v)), Scale3(tmp, Cross3(v, p)))
  }

  // ---------------------------------------------------------------- algebra of the product

  lemma Components(q1: Quat, q2: Quat)
    ensures MulQ(q1, q2).w == q1.w*q2.w - q1.x*q2.x - q1.y*q2.y - q1.z*q2.z
    ensures MulQ(q1, q2).x == q1.w*q2.x + q2.w*q1.x + q2.y*q1.z - q2.z*q1.y
    ensures MulQ(q1, q2).y == q1.w*q2.y + q2.w*q1.y + q2.z*q1.x - q2.x*q1.z
    ensures MulQ(q1, q2).z == q1.w*q2.z + q2.w*q1.z + q2.x*q1.y - q2.y*q1.x
  {
  }

  function AsVec4(q: Quat): Vec4 {
    Vec4(q.w, q.x, q.y, q.z)
  }

  /** Multiplication by b from the right, as a matrix. */
  function RightMatrix(b: Quat): Mat4 {
    Mat4(
      b.w, b.x, b.y, b.z,
      -b.x, b.w, b.z, -b.y,
      -b.y, -b.z, b.w, b.x,
      -b.z, b.y, -b.x, b.w)
  }

  lemma RightMatrixMultiplies(a: Quat, b: Quat)
    ensures AsVec4(MulQ(a, b)) == Transform(AsVec4(a), RightMatrix(b))
  {
  }

  lemma RightMatrixRow0(b: Quat, c: Quat)
    ensures Row(RightMatrix(MulQ(b, c)), 0) == Transform(Row(RightMatrix(b), 0), RightMatrix(c))
  {
  }

  lemma RightMatrixRow1(b: Quat, c: Quat)
    ensures Row(RightMatrix(MulQ(b, c)), 1) == Transform(Row(RightMatrix(b), 1), RightMatrix(c))
  {
  }

  lemma RightMatrixRow2(b: Quat, c: Quat)
    ensures Row(RightMatrix(MulQ(b, c)), 2) == Transform(Row(RightMatrix(b), 2), RightMatrix(c))
  {
  }

  lemma RightMatrixRow3(b: Quat, c: Quat)
    ensures Row(RightMatrix(MulQ(b, c)), 3) == Transform(Row(RightMatrix(b), 3), RightMatrix(c))
  {
  }

  lemma RightMatrixOfProduct(b: Quat, c: Quat)
    ensures RightMatrix(MulQ(b, c)) == Mul(RightMatrix(b), RightMatrix(c))
  {
    var m, n := RightMatrix(MulQ(b, c)), Mul(RightMatrix(b), RightMatrix(c));
    RightMatrixRow0(b, c);
    RightMatrixRow1(b, c);
    RightMatrixRow2(b, c);
    RightMatrixRow3(b, c);
    hide RightMatrix, Mul, Transform, MulQ;
    forall i: Index, j: Index ensures At(m, i, j) == At(n, i, j) {
      MulRow(RightMatrix(b), RightMatrix(c), i);
    }
    SameEntries(m, n);
  }

  lemma MulQAssoc(a: Quat, b: Quat, c: Quat)
    ensures MulQ(MulQ(a, b), c) == MulQ(a, MulQ(b, c))
  {
    RightMatrixMultiplies(a, b);
    RightMatrixMultiplies(MulQ(a, b), c);
    RightMatrixMultiplies(a, MulQ(b, c));
    RightMatrixOfProduct(b, c);
    TransformMul(AsVec4(a), RightMatrix(b), RightMatrix(c));
    hide MulQ, Transform, Mul, RightMatrix;
  }

  /** What the original calls the inverse is one exactly for unit quaternions. */
  lemma InverseLaw(q: Quat)
    ensures MulQ(q, Inverse(q)) == MulQ(Inverse(q), q) == Quat(NormSquared(q), 0.0, 0.0, 0.0)
    ensures MulQ(q, Inverse(q)) == ONE <==> NormSquared(q) == 1.0
  {
    Components(q, Inverse(q));
    Components(Inverse(q), q);
  }

  lemma InverseOfProduct(a: Quat, b: Quat)
    ensures Inverse(MulQ(a, b)) == MulQ(Inverse(b), Inverse(a))
  {
    Components(a, b);
    Components(Inverse(b), Inverse(a));
    hide MulQ;
  }

  lemma MulQOne(q: Quat)
    ensures MulQ(ONE, q) == q == MulQ(q, ONE)
  {
    Components(ONE, q);
    Components(q, ONE);
  }

  lemma MulQScalar(k: real, a: Quat)
    ensures MulQ(Quat(k, 0.0, 0.0, 0.0), a) == ScaleQ(k, a) == MulQ(a, Quat(k, 0.0, 0.0, 0.0))
  {
    Components(Quat(k, 0.0, 0.0, 0.0), a);
    Components(a, Quat(k, 0.0, 0.0, 0.0));
    hide MulQ;
  }

  /** Euler's four-square identity: the squared norm is multiplicative. */
  lemma NormMultiplicative(a: Quat, b: Quat)
    ensures NormSquared(MulQ(a, b)) == NormSquared(a) * NormSquared(b)
  {
    var a', b', ab := Inverse(a), Inverse(b), MulQ(a, b);
    var n := NormSquared(b);
    var k := Quat(n, 0.0, 0.0, 0.0);
    InverseLaw(a);
    InverseLaw(b);
    InverseLaw(ab);
    InverseOfProduct(a, b);
    MulQScalar(n, a);
    MulQScalar(n, MulQ(a, a'));
    hide MulQ, NormSquared, Inverse;
    calc {
      MulQ(ab, MulQ(b', a'));
      { MulQAssoc(a, b, MulQ(b', a')); MulQAssoc(b, b', a'); }
      MulQ(a, MulQ(k, a'));
      { MulQAssoc(a, k, a'); MulQAssoc(k, a, a'); }
      MulQ(k, MulQ(a, a'));
      ScaleQ(n, MulQ(a, a'));
    }
  }

  // ---------------------------------------------------------------- rotation

  /** q^-1 * p * q, with p as a pure quaternion. */
  function Sandwich(q: Quat, p: Quat): Quat {
    MulQ(MulQ(Inverse(q), p), q)
  }

  lemma RotateX(q: Quat, p: Vec3)
    ensures Rotate(q, p).x == (2.0*q.w*q.w - 1.0)*p.x + 2.0*(q.x*p.x + q.y*p.y + q.z*p.z)*q.x
      + 2.0*q.w*(q.y*p.z - q.z*p.y)
  {
  }

  /** The factor of the sandwich product that is not q itself. */
  lemma HalfSandwich(q: Quat, p: Vec3)
    ensures MulQ(Inverse(q), FromVector(0.0, p)) ==
      Quat(q.x*p.x + q.y*p.y + q.z*p.z,
        q.w*p.x - p.y*q.z + p.z*q.y, q.w*p.y - p.z*q.x + p.x*q.z, q.w*p.z - p.x*q.y + p.y*q.x)
  {
  }

  lemma MulX(a: Quat, b: Quat)
    ensures MulQ(a, b).x == a.w*b.x + b.w*a.x + b.y*a.z - b.z*a.y
  {
  }

  lemma MulW(a: Quat, b: Quat)
    ensures MulQ(a, b).w == a.w*b.w - a.x*b.x - a.y*b.y - a.z*b.z
  {
  }

  lemma SandwichW(w: real, x: real, y: real, z: real, px: real, py: real, pz: real, tw: real, tx: real, ty: real,
      tz: real)
    requires tw == x*px + y*py + z*pz
    requires tx == w*px - py*z + pz*y
    requires ty == w*py - pz*x + px*z
    requires tz == w*pz - px*y + py*x
    ensures tw*w - tx*x - ty*y - tz*z == 0.0
  {
    assert tw*w == (x*px + y*py + z*pz)*w;
    assert tx*x == (w*px - py*z + pz*y)*x;
    assert ty*y == (w*py - pz*x + px*z)*y;
    assert tz*z == (w*pz - px*y + py*x)*z;
  }

  lemma SandwichVector(w: real, x: real, y: real, z: real, px: real, py: real, pz: real, tw: real, tx: real, ty: real,
      tz: real)
    requires w*w + x*x + y*y + z*z == 1.0
    requires tw == x*px + y*py + z*pz
    requires tx == w*px - py*z + pz*y
    requires ty == w*py - pz*x + px*z
    requires tz == w*pz - px*y + py*x
    ensures tw*x + w*tx + y*tz - z*ty == (2.0*w*w - 1.0)*px + 2.0*(x*px + y*py + z*pz)*x + 2.0*w*(y*pz - z*py)
  {
    assert tw*x == (x*px + y*py + z*pz)*x;
    assert tx*w == (w*px - py*z + pz*y)*w;
    assert ty*z == (w*py - pz*x + px*z)*z;
    assert tz*y == (w*pz - px*y + py*x)*y;
    assert (w*w + x*x + y*y + z*z)*px == 1.0*px;
  }

  lemma SandwichIsPure(q: Quat, p: Vec3)
    ensures Sandwich(q, FromVector(0.0, p)).w == 0.0
  {
    var t := MulQ(Inverse(q), FromVector(0.0, p));
    HalfSandwich(q, p);
    MulW(t, q);
    hide MulQ;
    SandwichW(q.w, q.x, q.y, q.z, p.x, p.y, p.z, t.w, t.x, t.y, t.z);
  }

  lemma SandwichX(q: Quat, p: Vec3)
    requires NormSquared(q) == 1.0
    ensures Sandwich(q, FromVector(0.0, p)).x == Rotate(q, p).x
  {
    var t := MulQ(Inverse(q), FromVector(0.0, p));
    HalfSandwich(q, p);
    MulX(t, q);
    RotateX(q, p);
    hide MulQ, Rotate;
    SandwichVector(q.w, q.x, q.y, q.z, p.x, p.y, p.z, t.w, t.x, t.y, t.z);
  }

  /** The cyclic exchange of the three axes, which every operation here respects. */
  function Cycle(q: Quat): Quat {
    Quat(q.w, q.y, q.z, q.x)
  }

  function Cycle3(p: Vec3): Vec3 {
    Vec3(p.y, p.z, p.x)
  }

  lemma MulCycle(a: Quat, b: Quat)
    ensures MulQ(Cycle(a), Cycle(b)) == Cycle(MulQ(a, b))
  {
  }

  lemma RotateCycle(q: Quat, p: Vec3)
    ensures Rotate(Cycle(q), Cycle3(p)) == Cycle3(Rotate(q, p))
  {
    assert Dot3(Vector(Cycle(q)), Cycle3(p)) == Dot3(Vector(q), p);
    assert Cross3(Vector(Cycle(q)), Cycle3(p)) == Cycle3(Cross3(Vector(q), p));
    hide Dot3, Cross3;
  }

  lemma SandwichCycle(q: Quat, p: Vec3)
    ensures Sandwich(Cycle(q), FromVector(0.0, Cycle3(p))) == Cycle(Sandwich(q, FromVector(0.0, p)))
  {
    MulCycle(Inverse(q), FromVector(0.0, p));
    MulCycle(MulQ(Inverse(q), FromVector(0.0, p)), q);
    hide MulQ;
  }

  /** For unit quaternions, Rotate is the sandwich product. */
  lemma RotateIsSandwich(q: Quat, p: Vec3)
    requires NormSquared(q) == 1.0
    ensures Sandwich(q, FromVector(0.0, p)) == FromVector(0.0, Rotate(q, p))
  {
    var q', p' := Cycle(q), Cycle3(p);
    assert NormSquared(q') == NormSquared(q) == NormSquared(Cycle(q')) by { hide MulQ, Rotate; }
    SandwichIsPure(q, p);
    SandwichX(q, p);
    SandwichX(q', p');
    SandwichX(Cycle(q'), Cycle3(p'));
    SandwichCycle(q, p);
    SandwichCycle(q', p');
    RotateCycle(q, p);
    RotateCycle(q', p');
    hide MulQ, Rotate, Sandwich, NormSquared;
  }

  /** Rotating by a product is rotating by its factors in turn, the left one first. */
  lemma RotateProduct(a: Quat, b: Quat, p: Vec3)
    requires NormSquared(a) == 1.0 && NormSquared(b) == 1.0
    ensures NormSquared(MulQ(a, b)) == 1.0
    ensures Rotate(MulQ(a, b), p) == Rotate(b, Rotate(a, p))
  {
    var v, ab := FromVector(0.0, p), MulQ(a, b);
    NormMultiplicative(a, b);
    RotateIsSandwich(ab, p);
    RotateIsSandwich(a, p);
    RotateIsSandwich(b, Rotate(a, p));
    InverseOfProduct(a, b);
    hide MulQ, Rotate, NormSquared, Inverse;
    var a', b' := Inverse(a), Inverse(b);
    calc {
      MulQ(MulQ(MulQ(b', a'), v), ab);
      { MulQAssoc(b', a', v); }
      MulQ(MulQ(b', MulQ(a', v)), ab);
      { MulQAssoc(MulQ(b', MulQ(a', v)), a, b); }
      MulQ(MulQ(MulQ(b', MulQ(a', v)), a), b);
      { MulQAssoc(b', MulQ(a', v), a); }
      MulQ(MulQ(b', MulQ(MulQ(a', v), a)), b);
    }
  }

  function AddQ(a: Quat, b: Quat): Quat {
    Quat(a.w + b.w, a.x + b.x, a.y + b.y, a.z + b.z)
  }

  lemma MulAdditive(a: Quat, b: Quat, c: Quat)
    ensures MulQ(a, AddQ(b, c)) == AddQ(MulQ(a, b), MulQ(a, c))
    ensures MulQ(AddQ(a, b), c) == AddQ(MulQ(a, c), MulQ(b, c))
  {
  }

  /** The sandwich keeps the scalar part and rotates the vector part. */
  lemma SandwichOf(q: Quat, s: real, v: Vec3)
    requires NormSquared(q) == 1.0
    ensures Sandwich(q, FromVector(s, v)) == FromVector(s, Rotate(q, v))
  {
    var scalar, pure := Quat(s, 0.0, 0.0, 0.0), FromVector(0.0, v);
    assert FromVector(s, v) == AddQ(scalar, pure)
      && FromVector(s, Rotate(q, v)) == AddQ(scalar, FromVector(0.0, Rotate(q, v))) by {
      hide Rotate, MulQ;
    }
    MulAdditive(Inverse(q), scalar, pure);
    MulAdditive(MulQ(Inverse(q), scalar), MulQ(Inverse(q), pure), q);
    RotateIsSandwich(q, v);
    MulQScalar(s, Inverse(q));
    MulQAssoc(scalar, Inverse(q), q);
    InverseLaw(q);
    MulQOne(scalar);
    hide MulQ, Rotate, Inverse, NormSquared, ScaleQ;
  }

  lemma NoScale(u: Vec3, c: Vec3)
    ensures Scale3(0.0, u) == ORIGIN && Add3(Add3(ORIGIN, ORIGIN), c) == c
  {
  }

  lemma PureProduct(u: Vec3, v: Vec3)
    ensures MulQ(FromVector(0.0, u), FromVector(0.0, v)) == FromVector(-Dot3(u, v), Cross3(v, u))
  {
    hide Dot3, Cross3, Scale3, Add3;
    assert Vector(FromVector(0.0, u)) == u && Vector(FromVector(0.0, v)) == v;
    NoScale(u, Cross3(v, u));
    NoScale(v, Cross3(v, u));
  }

  lemma SandwichOfProduct(q: Quat, a: Quat, b: Quat)
    requires NormSquared(q) == 1.0
    ensures MulQ(Sandwich(q, a), Sandwich(q, b)) == Sandwich(q, MulQ(a, b))
  {
    InverseLaw(q);
    MulQOne(b);
    hide MulQ, NormSquared, Inverse;
    var q', l := Inverse(q), MulQ(Inverse(q), a);
    calc {
      MulQ(MulQ(l, q), MulQ(MulQ(q', b), q));
      { MulQAssoc(l, q, MulQ(MulQ(q', b), q)); MulQAssoc(q, MulQ(q', b), q); MulQAssoc(q, q', b); }
      MulQ(l, MulQ(b, q));
      { MulQAssoc(l, b, q); MulQAssoc(q', a, b); }
      MulQ(MulQ(q', MulQ(a, b)), q);
    }
  }

  /** Rotation keeps dot products, and carries cross products along. */
  lemma RotateKeepsProducts(q: Quat, u: Vec3, v: Vec3)
    requires NormSquared(q) == 1.0
    ensures Dot3(Rotate(q, u), Rotate(q, v)) == Dot3(u, v)
    ensures Cross3(Rotate(q, u), Rotate(q, v)) == Rotate(q, Cross3(u, v))
  {
    SandwichOf(q, 0.0, u);
    SandwichOf(q, 0.0, v);
    SandwichOfProduct(q, FromVector(0.0, v), FromVector(0.0, u));
    PureProduct(v, u);
    PureProduct(Rotate(q, v), Rotate(q, u));
    SandwichOf(q, -Dot3(v, u), Cross3(u, v));
    Dot3Symmetric(u, v);
    Dot3Symmetric(Rotate(q, u), Rotate(q, v));
    hide MulQ, Rotate, NormSquared, Sandwich, Dot3, Cross3;
  }
}
