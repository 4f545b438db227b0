/** Rotations about the axes and their combination in any of the six orders. */
module EulerRotation {
  import opened Vector3
  import opened Frames
  import opened Matrix4
  import opened AffineMatrix
  import R = RotationMatrix

  /** The sine and cosine of an angle. */
  datatype Turn = Turn(sin: real, cos: real)

  predicate IsTurn(t: Turn) {
    t.sin*t.sin + t.cos*t.cos == 1.0
  }

  /** The order of rotation, first axis first. */
  datatype RotationOrder = ZYX | YZX | XZY | ZXY | YXZ | XYZ

  function MakeRotationX(t: Turn): Mat4 {
    Mat4(
      1.0, 0.0, 0.0, 0.0,
      0.0, t.cos, t.sin, 0.0,
      0.0, -t.sin, t.cos, 0.0,
      0.0, 0.0, 0.0, 1.0)
  }

  function MakeRotationY(t: Turn): Mat4 {
    Mat4(
      t.cos, 0.0, -t.sin, 0.0,
      0.0, 1.0, 0.0, 0.0,
      t.sin, 0.0, t.cos, 0.0,
      0.0, 0.0, 0.0, 1.0)
  }

  function MakeRotationZ(t: Turn): Mat4 {
    Mat4(
      t.cos, t.sin, 0.0, 0.0,
      -t.sin, t.cos, 0.0, 0.0,
      0.0, 0.0, 1.0, 0.0,
      0.0, 0.0, 0.0, 1.0)
  }

  /** The upper-left 3x3 matrix each order computes. */
  function RotationAxes(x: Turn, y: Turn, z: Turn, order: RotationOrder): (Vec3, Vec3, Vec3) {
    var (sX, cX, sY, cY, sZ, cZ) := (x.sin, x.cos, y.sin, y.cos, z.sin, z.cos);
    match order
    case ZYX => (
      Vec3(cZ*cY, sZ*cX + cZ*sY*sX, sZ*sX + -cZ*sY*cX),
      Vec3(-sZ*cY, cZ*cX + -sZ*sY*sX, cZ*sX + sZ*sY*cX),
      Vec3(sY, -cY*sX, cY*cX))
    case YZX => (
      Vec3(cY*cZ, cY*sZ*cX + sY*sX, cY*sZ*sX + -sY*cX),
      Vec3(-sZ, cZ*cX, cZ*sX),
      Vec3(sY*cZ, sY*sZ*cX + -cY*sX, sY*sZ*sX + cY*cX))
    case XZY => (
      Vec3(cZ*cY, sZ, -cZ*sY),
      Vec3(-cX*sZ*cY + sX*sY, cX*cZ, cX*sZ*sY + sX*cY),
      Vec3(sX*sZ*cY + cX*sY, -sX*cZ, -sX*sZ*sY + cX*cY))
    case ZXY => (
      Vec3(cZ*cY + sZ*sX*sY, sZ*cX, -cZ*sY + sZ*sX*cY),
      Vec3(-sZ*cY + cZ*sX*sY, cZ*cX, sZ*sY + cZ*sX*cY),
      Vec3(cX*sY, -sX, cX*cY))
    case YXZ => (
      Vec3(cY*cZ + -sY*sX*sZ, cY*sZ + sY*sX*cZ, -sY*cX),
      Vec3(-cX*sZ, cX*cZ, sX),
      Vec3(sY*cZ + cY*sX*sZ, sY*sZ + -cY*sX*cZ, cY*cX))
    case XYZ => (
      Vec3(cY*cZ, cY*sZ, -sY),
      Vec3(sX*sY*cZ + -cX*sZ, sX*sY*sZ + cX*cZ, sX*cY),
      Vec3(cX*sY*cZ + sX*sZ, cX*sY*sZ + -sX*cZ, cX*cY))
  }

  function FromAxes(a: Vec3, b: Vec3, c: Vec3): Mat4 {
    Mat4(
      a.x, a.y, a.z, 0.0,
      b.x, b.y, b.z, 0.0,
      c.x, c.y, c.z, 0.0,
      0.0, 0.0, 0.0, 1.0)
  }

  function MakeRotation(x: Turn, y: Turn, z: Turn, order: RotationOrder): Mat4 {
    var (a, b, c) := RotationAxes(x, y, z, order);
    FromAxes(a, b, c)
  }

  /** The three single-axis rotations multiplied in the order its name says, first axis first. */
  function InOrder(x: Turn, y: Turn, z: Turn, order: RotationOrder): Mat4 {
    var mx, my, mz := MakeRotationX(x), MakeRotationY(y), MakeRotationZ(z);
    match order
    case ZYX => Mul(Mul(mz, my), mx)
    case YZX => Mul(Mul(my, mz), mx)
    case XZY => Mul(Mul(mx, mz), my)
    case ZXY => Mul(Mul(mz, mx), my)
    case YXZ => Mul(Mul(my, mx), mz)
    case XYZ => Mul(Mul(mx, my), mz)
  }

  function Basis(i: Index): Vec3
    requires i < 3
  {
    if i == 0 then R.E0 else if i == 1 then R.E1 else R.E2
  }

  // ---------------------------------------------------------------- one axis at a time

  function TurnX(v: Vec3, t: Turn): Vec3 {
    Vec3(v.x, v.y*t.cos - v.z*t.sin, v.y*t.sin + v.z*t.cos)
  }

  function TurnY(v: Vec3, t: Turn): Vec3 {
    Vec3(v.x*t.cos + v.z*t.sin, v.y, v.z*t.cos - v.x*t.sin)
  }

  function TurnZ(v: Vec3, t: Turn): Vec3 {
    Vec3(v.x*t.cos - v.y*t.sin, v.x*t.sin + v.y*t.cos, v.z)
  }

  lemma SingleAxis(v: Vec3, t: Turn)
    ensures TransformVector(v, MakeRotationX(t)) == TurnX(v, t)
    ensures TransformVector(v, MakeRotationY(t)) == TurnY(v, t)
    ensures TransformVector(v, MakeRotationZ(t)) == TurnZ(v, t)
  {
  }

  predicate Linear(m: Mat4) {
    IsAffine(m) && Axis(m, 3) == ORIGIN
  }

  lemma SingleAxisRows(t: Turn)
    ensures var m := MakeRotationX(t);
      Linear(m) && Axis(m, 0) == TurnX(R.E0, t) && Axis(m, 1) == TurnX(R.E1, t) && Axis(m, 2) == TurnX(R.E2, t)
    ensures var m := MakeRotationY(t);
      Linear(m) && Axis(m, 0) == TurnY(R.E0, t) && Axis(m, 1) == TurnY(R.E1, t) && Axis(m, 2) == TurnY(R.E2, t)
    ensures var m := MakeRotationZ(t);
      Linear(m) && Axis(m, 0) == TurnZ(R.E0, t) && Axis(m, 1) == TurnZ(R.E1, t) && Axis(m, 2) == TurnZ(R.E2, t)
  {
  }

  /** The rows of a product of three: each basis vector carried through them. */
  lemma ThreeInTurn(a: Mat4, b: Mat4, c: Mat4, i: Index)
    requires Linear(a) && Linear(b) && Linear(c) && i < 3
    ensures Linear(Mul(Mul(a, b), c))
    ensures Axis(Mul(Mul(a, b), c), i) == TransformVector(TransformVector(Axis(a, i), b), c)
  {
    hide Mul, TransformVector, Axis;
    R.AffineProductAxes(a, b);
    R.AffineProductAxes(Mul(a, b), c);
    match i case 0 => case 1 => case 2 =>
  }

  datatype Which = AboutX | AboutY | AboutZ

  function Single(w: Which, t: Turn): Mat4 {
    match w case AboutX => MakeRotationX(t) case AboutY => MakeRotationY(t) case AboutZ => MakeRotationZ(t)
  }

  function Turned(v: Vec3, w: Which, t: Turn): Vec3 {
    match w case AboutX => TurnX(v, t) case AboutY => TurnY(v, t) case AboutZ => TurnZ(v, t)
  }

  lemma CarriedThrough(u: Which, s: Turn, v: Which, t: Turn, w: Which, r: Turn, i: Index)
    requires i < 3
    ensures var m := Mul(Mul(Single(u, s), Single(v, t)), Single(w, r));
      Linear(m) && Axis(m, i) == Turned(Turned(Turned(Basis(i), u, s), v, t), w, r)
  {
    hide Mul, TransformVector, Axis, TurnX, TurnY, TurnZ, MakeRotationX, MakeRotationY, MakeRotationZ;
    SingleAxisRows(s);
    SingleAxisRows(t);
    SingleAxisRows(r);
    ThreeInTurn(Single(u, s), Single(v, t), Single(w, r), i);
    SingleAxis(Axis(Single(u, s), i), t);
    SingleAxis(Turned(Axis(Single(u, s), i), v, t), r);
  }

  lemma FirstZY(y: Turn, z: Turn)
    ensures TurnY(TurnZ(R.E0, z), y) == Vec3(y.cos*z.cos, z.sin, -y.sin*z.cos)
    ensures TurnY(TurnZ(R.E1, z), y) == Vec3(-y.cos*z.sin, z.cos, y.sin*z.sin)
    ensures TurnY(TurnZ(R.E2, z), y) == Vec3(y.sin, 0.0, y.cos)
  {
  }

  lemma OrderZYX(x: Turn, y: Turn, z: Turn)
    ensures var (a, b, c) := RotationAxes(x, y, z, ZYX);
      && a == TurnX(TurnY(TurnZ(R.E0, z), y), x)
      && b == TurnX(TurnY(TurnZ(R.E1, z), y), x)
      && c == TurnX(TurnY(TurnZ(R.E2, z), y), x)
  {
    FirstZY(y, z);
    hide TurnZ, TurnY;
  }

  lemma FirstYZ(y: Turn, z: Turn)
    ensures TurnZ(TurnY(R.E0, y), z) == Vec3(y.cos*z.cos, y.cos*z.sin, -y.sin)
    ensures TurnZ(TurnY(R.E1, y), z) == Vec3(-z.sin, z.cos, 0.0)
    ensures TurnZ(TurnY(R.E2, y), z) == Vec3(y.sin*z.cos, y.sin*z.sin, y.cos)
  {
  }

  lemma OrderYZX(x: Turn, y: Turn, z: Turn)
    ensures var (a, b, c) := RotationAxes(x, y, z, YZX);
      && a == TurnX(TurnZ(TurnY(R.E0, y), z), x)
      && b == TurnX(TurnZ(TurnY(R.E1, y), z), x)
      && c == TurnX(TurnZ(TurnY(R.E2, y), z), x)
  {
    FirstYZ(y, z);
    hide TurnY, TurnZ;
  }

  lemma FirstXZ(x: Turn, z: Turn)
    ensures TurnZ(TurnX(R.E0, x), z) == Vec3(z.cos, z.sin, 0.0)
    ensures TurnZ(TurnX(R.E1, x), z) == Vec3(-x.cos*z.sin, x.cos*z.cos, x.sin)
    ensures TurnZ(TurnX(R.E2, x), z) == Vec3(x.sin*z.sin, -x.sin*z.cos, x.cos)
  {
  }

  lemma OrderXZY(x: Turn, y: Turn, z: Turn)
    ensures var (a, b, c) := RotationAxes(x, y, z, XZY);
      && a == TurnY(TurnZ(TurnX(R.E0, x), z), y)
      && b == TurnY(TurnZ(TurnX(R.E1, x), z), y)
      && c == TurnY(TurnZ(TurnX(R.E2, x), z), y)
  {
    FirstXZ(x, z);
    hide TurnX, TurnZ;
  }

  lemma FirstZX(x: Turn, z: Turn)
    ensures TurnX(TurnZ(R.E0, z), x) == Vec3(z.cos, x.cos*z.sin, x.sin*z.sin)
    ensures TurnX(TurnZ(R.E1, z), x) == Vec3(-z.sin, x.cos*z.cos, x.sin*z.cos)
    ensures TurnX(TurnZ(R.E2, z), x) == Vec3(0.0, -x.sin, x.cos)
  {
  }

  lemma OrderZXY(x: Turn, y: Turn, z: Turn)
    ensures var (a, b, c) := RotationAxes(x, y, z, ZXY);
      && a == TurnY(TurnX(TurnZ(R.E0, z), x), y)
      && b == TurnY(TurnX(TurnZ(R.E1, z), x), y)
      && c == TurnY(TurnX(TurnZ(R.E2, z), x), y)
  {
    FirstZX(x, z);
    hide TurnZ, TurnX;
  }

  lemma FirstYX(x: Turn, y: Turn)
    ensures TurnX(TurnY(R.E0, y), x) == Vec3(y.cos, x.sin*y.sin, -x.cos*y.sin)
    ensures TurnX(TurnY(R.E1, y), x) == Vec3(0.0, x.cos, x.sin)
    ensures TurnX(TurnY(R.E2, y), x) == Vec3(y.sin, -x.sin*y.cos, x.cos*y.cos)
  {
  }

  lemma OrderYXZ(x: Turn, y: Turn, z: Turn)
    ensures var (a, b, c) := RotationAxes(x, y, z, YXZ);
      && a == TurnZ(TurnX(TurnY(R.E0, y), x), z)
      && b == TurnZ(TurnX(TurnY(R.E1, y), x), z)
      && c == TurnZ(TurnX(TurnY(R.E2, y), x), z)
  {
    FirstYX(x, y);
    hide TurnY, TurnX;
  }

  lemma FirstXY(x: Turn, y: Turn)
    ensures TurnY(TurnX(R.E0, x), y) == Vec3(y.cos, 0.0, -y.sin)
    ensures TurnY(TurnX(R.E1, x), y) == Vec3(x.sin*y.sin, x.cos, x.sin*y.cos)
    ensures TurnY(TurnX(R.E2, x), y) == Vec3(x.cos*y.sin, -x.sin, x.cos*y.cos)
  {
  }

  lemma OrderXYZ(x: Turn, y: Turn, z: Turn)
    ensures var (a, b, c) := RotationAxes(x, y, z, XYZ);
      && a == TurnZ(TurnY(TurnX(R.E0, x), y), z)
      && b == TurnZ(TurnY(TurnX(R.E1, x), y), z)
      && c == TurnZ(TurnY(TurnX(R.E2, x), y), z)
  {
    FirstXY(x, y);
    hide TurnX, TurnY;
  }

  lemma FromAxesShape(a: Vec3, b: Vec3, c: Vec3)
    ensures var m := FromAxes(a, b, c); Linear(m) && Axis(m, 0) == a && Axis(m, 1) == b && Axis(m, 2) == c
  {
  }

  /** In every order the combined rotation is the product of the three, first axis first. */
  lemma MakeRotationIsProduct(x: Turn, y: Turn, z: Turn, order: RotationOrder)
    ensures MakeRotation(x, y, z, order) == InOrder(x, y, z, order)
  {
    hide Mul, Axis, TurnX, TurnY, TurnZ, MakeRotationX, MakeRotationY, MakeRotationZ, RotationAxes, FromAxes;
    var (a, b, c) := RotationAxes(x, y, z, order);
    FromAxesShape(a, b, c);
    match order {
    case ZYX =>
      OrderZYX(x, y, z);
      CarriedThrough(AboutZ, z, AboutY, y, AboutX, x, 0);
      CarriedThrough(AboutZ, z, AboutY, y, AboutX, x, 1);
      CarriedThrough(AboutZ, z, AboutY, y, AboutX, x, 2);
    case YZX =>
      OrderYZX(x, y, z);
      CarriedThrough(AboutY, y, AboutZ, z, AboutX, x, 0);
      CarriedThrough(AboutY, y, AboutZ, z, AboutX, x, 1);
      CarriedThrough(AboutY, y, AboutZ, z, AboutX, x, 2);
    case XZY =>
      OrderXZY(x, y, z);
      CarriedThrough(AboutX, x, AboutZ, z, AboutY, y, 0);
      CarriedThrough(AboutX, x, AboutZ, z, AboutY, y, 1);
      CarriedThrough(AboutX, x, AboutZ, z, AboutY, y, 2);
    case ZXY =>
      OrderZXY(x, y, z);
      CarriedThrough(AboutZ, z, AboutX, x, AboutY, y, 0);
      CarriedThrough(AboutZ, z, AboutX, x, AboutY, y, 1);
      CarriedThrough(AboutZ, z, AboutX, x, AboutY, y, 2);
    case YXZ =>
      OrderYXZ(x, y, z);
      CarriedThrough(AboutY, y, AboutX, x, AboutZ, z, 0);
      CarriedThrough(AboutY, y, AboutX, x, AboutZ, z, 1);
      CarriedThrough(AboutY, y, AboutX, x, AboutZ, z, 2);
    case XYZ =>
      OrderXYZ(x, y, z);
      CarriedThrough(AboutX, x, AboutY, y, AboutZ, z, 0);
      CarriedThrough(AboutX, x, AboutY, y, AboutZ, z, 1);
      CarriedThrough(AboutX, x, AboutY, y, AboutZ, z, 2);
    }
    R.SameAxes(FromAxes(a, b, c), InOrder(x, y, z, order));
  }

  // ---------------------------------------------------------------- proper rotations

  predicate IsRotation(m: Mat4) {
    Linear(m) && Proper(Axis(m, 0), Axis(m, 1), Axis(m, 2))
  }

  lemma SingleIsRotation(w: Which, t: Turn)
    requires IsTurn(t)
    ensures IsRotation(Single(w, t))
  {
    SingleAxisRows(t);
    TurnedBasis(w, t);
    hide Proper, Cross3, Dot3, Axis, MakeRotationX, MakeRotationY, MakeRotationZ, TurnX, TurnY, TurnZ;
    var a, b, c := Turned(R.E0, w, t), Turned(R.E1, w, t), Turned(R.E2, w, t);
    FrameIsProper(a, b, c);
  }

  /** An orthonormal pair with the third axis their vector product. */
  predicate Frame(a: Vec3, b: Vec3, c: Vec3) {
    Dot3(a, a) == 1.0 && Dot3(b, b) == 1.0 && Dot3(a, b) == 0.0 && Cross3(a, b) == c
  }

  lemma TurnedBasis(w: Which, t: Turn)
    requires IsTurn(t)
    ensures Frame(Turned(R.E0, w, t), Turned(R.E1, w, t), Turned(R.E2, w, t))
  {
    TurnedBasisVectors(t);
    hide Frame, IsTurn, TurnX, TurnY, TurnZ;
    match w
    case AboutX => FrameX(t);
    case AboutY => FrameY(t);
    case AboutZ => FrameZ(t);
  }

  lemma TurnedBasisVectors(t: Turn)
    ensures TurnX(R.E0, t) == Vec3(1.0, 0.0, 0.0) && TurnX(R.E1, t) == Vec3(0.0, t.cos, t.sin)
      && TurnX(R.E2, t) == Vec3(0.0, -t.sin, t.cos)
    ensures TurnY(R.E0, t) == Vec3(t.cos, 0.0, -t.sin) && TurnY(R.E1, t) == Vec3(0.0, 1.0, 0.0)
      && TurnY(R.E2, t) == Vec3(t.sin, 0.0, t.cos)
    ensures TurnZ(R.E0, t) == Vec3(t.cos, t.sin, 0.0) && TurnZ(R.E1, t) == Vec3(-t.sin, t.cos, 0.0)
      && TurnZ(R.E2, t) == Vec3(0.0, 0.0, 1.0)
  {
  }

  lemma FrameByEntries(a0: real, a1: real, a2: real, b0: real, b1: real, b2: real, c: Vec3)
    requires a0*a0 + a1*a1 + a2*a2 == 1.0 && b0*b0 + b1*b1 + b2*b2 == 1.0 && a0*b0 + a1*b1 + a2*b2 == 0.0
    requires c == Vec3(a1*b2 - a2*b1, a2*b0 - a0*b2, a0*b1 - a1*b0)
    ensures Frame(Vec3(a0, a1, a2), Vec3(b0, b1, b2), c)
  {
  }

  lemma FrameX(t: Turn)
    requires IsTurn(t)
    ensures Frame(Vec3(1.0, 0.0, 0.0), Vec3(0.0, t.cos, t.sin), Vec3(0.0, -t.sin, t.cos))
  {
    FrameByEntries(1.0, 0.0, 0.0, 0.0, t.cos, t.sin, Vec3(0.0, -t.sin, t.cos));
    hide Frame;
  }

  lemma FrameY(t: Turn)
    requires IsTurn(t)
    ensures Frame(Vec3(t.cos, 0.0, -t.sin), Vec3(0.0, 1.0, 0.0), Vec3(t.sin, 0.0, t.cos))
  {
    var s, c := t.sin, t.cos;
    assert c*c + 0.0*0.0 + (-s)*(-s) == 1.0;
    hide *;
    FrameByEntries(c, 0.0, -s, 0.0, 1.0, 0.0, Vec3(s, 0.0, c));
  }

  lemma FrameZ(t: Turn)
    requires IsTurn(t)
    ensures Frame(Vec3(t.cos, t.sin, 0.0), Vec3(-t.sin, t.cos, 0.0), Vec3(0.0, 0.0, 1.0))
  {
    FrameByEntries(t.cos, t.sin, 0.0, -t.sin, t.cos, 0.0, Vec3(0.0, 0.0, 1.0));
    hide Frame;
  }

  lemma DotTransformed(u: Vec3, m: Mat4, w: Vec3)
    ensures Dot3(TransformVector(u, m), w) == u.x*Dot3(Axis(m, 0), w) + u.y*Dot3(Axis(m, 1), w)
      + u.z*Dot3(Axis(m, 2), w)
  {
    assert u.x*Dot3(Axis(m, 0), w) == u.x*(m.e00*w.x + m.e01*w.y + m.e02*w.z);
    assert u.y*Dot3(Axis(m, 1), w) == u.y*(m.e10*w.x + m.e11*w.y + m.e12*w.z);
    assert u.z*Dot3(Axis(m, 2), w) == u.z*(m.e20*w.x + m.e21*w.y + m.e22*w.z);
  }

  /** A rotation keeps scalar products. */
  lemma RotationKeepsDot(u: Vec3, v: Vec3, m: Mat4)
    requires IsRotation(m)
    ensures Dot3(TransformVector(u, m), TransformVector(v, m)) == Dot3(u, v)
  {
    var a, b, c, w := Axis(m, 0), Axis(m, 1), Axis(m, 2), TransformVector(v, m);
    assert Orthonormal(a, b, c) by { hide Dot3, Cross3, Axis; }
    Coordinates(v, m);
    DotTransformed(u, m, w);
    hide Proper, Orthonormal, TransformVector, Axis, Cross3;
    assert u.x*Dot3(a, w) == u.x*v.x && u.y*Dot3(b, w) == u.y*v.y && u.z*Dot3(c, w) == u.z*v.z by { hide Dot3; }
  }

  lemma Coordinates(v: Vec3, m: Mat4)
    requires Orthonormal(Axis(m, 0), Axis(m, 1), Axis(m, 2))
    ensures var w := TransformVector(v, m);
      Dot3(Axis(m, 0), w) == v.x && Dot3(Axis(m, 1), w) == v.y && Dot3(Axis(m, 2), w) == v.z
  {
    var a, b, c, w := Axis(m, 0), Axis(m, 1), Axis(m, 2), TransformVector(v, m);
    DotTransformed(v, m, a);
    DotTransformed(v, m, b);
    DotTransformed(v, m, c);
    hide Dot3, Axis, TransformVector;
    Dot3Symmetric(a, w);
    Dot3Symmetric(b, w);
    Dot3Symmetric(c, w);
    Dot3Symmetric(a, b);
    Dot3Symmetric(b, c);
    Dot3Symmetric(c, a);
  }

  lemma BinetCauchy(u: Vec3, v: Vec3, p: Vec3, q: Vec3)
    ensures Dot3(u, p)*Dot3(v, q) - Dot3(u, q)*Dot3(v, p) == Dot3(Cross3(u, v), Cross3(p, q))
  {
    DotTimesDot(u, p, v, q);
    DotTimesDot(u, q, v, p);
  }

  lemma DotTimesDot(u: Vec3, p: Vec3, v: Vec3, q: Vec3)
    ensures Dot3(u, p)*Dot3(v, q) == (u.x*p.x + u.y*p.y + u.z*p.z)*(v.x*q.x + v.y*q.y + v.z*q.z)
  {
    var d := Dot3(v, q);
    assert Dot3(u, p)*d == (u.x*p.x + u.y*p.y + u.z*p.z)*d;
    assert (u.x*p.x + u.y*p.y + u.z*p.z)*d == (u.x*p.x + u.y*p.y + u.z*p.z)*(v.x*q.x + v.y*q.y + v.z*q.z);
  }

  lemma TransformByColumns(u: Vec3, m: Mat4)
    ensures TransformVector(u, m)
      == Vec3(Dot3(u, Vec3(m.e00, m.e10, m.e20)), Dot3(u, Vec3(m.e01, m.e11, m.e21)),
        Dot3(u, Vec3(m.e02, m.e12, m.e22)))
  {
  }

  lemma ColumnsCross(m: Mat4)
    requires IsRotation(m)
    ensures var p, q, r := Vec3(m.e00, m.e10, m.e20), Vec3(m.e01, m.e11, m.e21), Vec3(m.e02, m.e12, m.e22);
      Cross3(q, r) == p && Cross3(r, p) == q && Cross3(p, q) == r
  {
    hide Dot3, Cross3;
    CrossOfColumns(Axis(m, 0), Axis(m, 1), Axis(m, 2));
  }

  /** A proper rotation keeps vector products. */
  lemma RotationKeepsCross(u: Vec3, v: Vec3, m: Mat4)
    requires IsRotation(m)
    ensures Cross3(TransformVector(u, m), TransformVector(v, m)) == TransformVector(Cross3(u, v), m)
  {
    var p, q, r := Vec3(m.e00, m.e10, m.e20), Vec3(m.e01, m.e11, m.e21), Vec3(m.e02, m.e12, m.e22);
    ColumnsCross(m);
    TransformByColumns(u, m);
    TransformByColumns(v, m);
    TransformByColumns(Cross3(u, v), m);
    hide Dot3, TransformVector, Proper, Axis;
    BinetCauchy(u, v, q, r);
    BinetCauchy(u, v, r, p);
    BinetCauchy(u, v, p, q);
  }

  lemma ProductIsRotation(a: Mat4, b: Mat4)
    requires IsRotation(a) && IsRotation(b)
    ensures IsRotation(Mul(a, b))
  {
    hide Mul, TransformVector, Axis, Dot3, Cross3;
    var p, q, r := Axis(a, 0), Axis(a, 1), Axis(a, 2);
    R.AffineProductAxes(a, b);
    RotationKeepsDot(p, p, b);
    RotationKeepsDot(q, q, b);
    RotationKeepsDot(p, q, b);
    RotationKeepsCross(p, q, b);
    FrameIsProper(TransformVector(p, b), TransformVector(q, b), TransformVector(r, b));
  }

  /** Whatever the angles and the order, the combined rotation is proper. */
  lemma MakeRotationIsProper(x: Turn, y: Turn, z: Turn, order: RotationOrder)
    requires IsTurn(x) && IsTurn(y) && IsTurn(z)
    ensures IsRotation(MakeRotation(x, y, z, order))
    ensures OrthonormalAxes(MakeRotation(x, y, z, order)) && DetUpper(MakeRotation(x, y, z, order)) == 1.0
  {
    hide Mul, IsRotation, MakeRotationX, MakeRotationY, MakeRotationZ, MakeRotation, OrthonormalAxes, DetUpper;
    MakeRotationIsProduct(x, y, z, order);
    SingleIsRotation(AboutX, x);
    SingleIsRotation(AboutY, y);
    SingleIsRotation(AboutZ, z);
    var mx, my, mz := MakeRotationX(x), MakeRotationY(y), MakeRotationZ(z);
    match order {
      case ZYX => ProductIsRotation(mz, my); ProductIsRotation(Mul(mz, my), mx);
      case YZX => ProductIsRotation(my, mz); ProductIsRotation(Mul(my, mz), mx);
      case XZY => ProductIsRotation(mx, mz); ProductIsRotation(Mul(mx, mz), my);
      case ZXY => ProductIsRotation(mz, mx); ProductIsRotation(Mul(mz, mx), my);
      case YXZ => ProductIsRotation(my, mx); ProductIsRotation(Mul(my, mx), mz);
      case XYZ => ProductIsRotation(mx, my); ProductIsRotation(Mul(mx, my), mz);
    }
    RotationHasOrthonormalAxes(MakeRotation(x, y, z, order));
  }

  lemma RotationHasOrthonormalAxes(m: Mat4)
    requires IsRotation(m)
    ensures OrthonormalAxes(m) && DetUpper(m) == 1.0
  {
    hide Axis, Dot3, Cross3, DetUpper;
    DetUpperIsTriple(m);
  }

  // ---------------------------------------------------------------- the same turns as quaternions

  /** A turn about one axis is the rotation by the quaternion with half the angle along that axis. */
  lemma HalfAngles(h: Turn)
    requires IsTurn(h)
    ensures var t := Turn(2.0*h.sin*h.cos, h.cos*h.cos - h.sin*h.sin);
      && IsTurn(t)
      && R.Rotation(R.Q.Quat(h.cos, h.sin, 0.0, 0.0)) == MakeRotationX(t)
      && R.Rotation(R.Q.Quat(h.cos, 0.0, h.sin, 0.0)) == MakeRotationY(t)
      && R.Rotation(R.Q.Quat(h.cos, 0.0, 0.0, h.sin)) == MakeRotationZ(t)
  {
    var s, c := h.sin*h.sin, h.cos*h.cos;
    assert (c - s)*(c - s) + 4.0*(s*c) == (s + c)*(s + c);
    assert (2.0*h.sin*h.cos)*(2.0*h.sin*h.cos) == 4.0*(s*c);
    assert (s + c)*(s + c) == 1.0;
    assert c - s == 1.0 - 2.0*s;
  }

  /** Which way they turn: about X the Y axis goes towards Z, about Y the Z axis towards X, about Z X towards Y. */
  lemma Directions(t: Turn)
    ensures TransformVector(Vec3(0.0, 1.0, 0.0), MakeRotationX(t)) == Vec3(0.0, t.cos, t.sin)
    ensures TransformVector(Vec3(0.0, 0.0, 1.0), MakeRotationY(t)) == Vec3(t.sin, 0.0, t.cos)
    ensures TransformVector(Vec3(1.0, 0.0, 0.0), MakeRotationZ(t)) == Vec3(t.cos, t.sin, 0.0)
  {
    UnitRows(MakeRotationX(t));
    UnitRows(MakeRotationY(t));
    UnitRows(MakeRotationZ(t));
  }

  lemma UnitRows(m: Mat4)
    ensures TransformVector(Vec3(1.0, 0.0, 0.0), m) == Axis(m, 0)
    ensures TransformVector(Vec3(0.0, 1.0, 0.0), m) == Axis(m, 1)
    ensures TransformVector(Vec3(0.0, 0.0, 1.0), m) == Axis(m, 2)
  {
  }
}
