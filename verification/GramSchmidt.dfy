/** Making the rows of the upper-left 3x3 matrix orthogonal again. */
module GramSchmidt {
  import opened RealMath
  import opened Vector3
  import opened Frames
  import opened Matrix4
  import opened AffineMatrix

  function Normalise(sqrt: real -> real, v: Vec3): Vec3
    requires IsSqrt(sqrt) && Dot3(v, v) != 0.0
  {
    SumOfSquares(v);
    LengthPositive(sqrt, v);
    Scale3(1.0 / Length(sqrt, v), v)
  }

  /** What is left of v without its part along the unit vector u. */
  function Rejection(v: Vec3, u: Vec3): Vec3 {
    Sub3(v, Scale3(Dot3(v, u), u))
  }

  /** The two numbers the original asserts to be non-zero before taking their inverse roots. */
  predicate Orthogonalisable(sqrt: real -> real, a: Vec3, b: Vec3)
    requires IsSqrt(sqrt)
  {
    Dot3(a, a) != 0.0 && var w := Rejection(b, Normalise(sqrt, a)); Dot3(w, w) != 0.0
  }

  /** The rows before they are scaled. */
  function Rows(sqrt: real -> real, a: Vec3, b: Vec3): (Vec3, Vec3, Vec3)
    requires IsSqrt(sqrt) && Orthogonalisable(sqrt, a, b)
  {
    var u := Normalise(sqrt, a);
    var v := Normalise(sqrt, Rejection(b, u));
    (u, v, Cross3(u, v))
  }

  function WithAxes(m: Mat4, a: Vec3, b: Vec3, c: Vec3): Mat4 {
    m.(e00 := a.x, e01 := a.y, e02 := a.z,
       e10 := b.x, e11 := b.y, e12 := b.z,
       e20 := c.x, e21 := c.y, e22 := c.z)
  }

  function Orthogonalise3x3(sqrt: real -> real, m: Mat4, scale: Vec3): Mat4
    requires IsSqrt(sqrt) && Orthogonalisable(sqrt, Axis(m, 0), Axis(m, 1))
  {
    var (u, v, w) := Rows(sqrt, Axis(m, 0), Axis(m, 1));
    WithAxes(m, Scale3(scale.x, u), Scale3(scale.y, v), Scale3(scale.z, w))
  }

  // ---------------------------------------------------------------- when it can be done

  lemma NormaliseIsUnit(sqrt: real -> real, v: Vec3)
    requires IsSqrt(sqrt) && Dot3(v, v) != 0.0
    ensures var u := Normalise(sqrt, v);
      Dot3(u, u) == 1.0 && Length(sqrt, v) > 0.0 && v == Scale3(Length(sqrt, v), u)
  {
    hide Dot3, Scale3;
    SumOfSquares(v);
    Normalised(sqrt, v);
  }

  lemma DotSub(w: Vec3, u: Vec3, v: Vec3)
    ensures Dot3(w, Sub3(u, v)) == Dot3(w, u) - Dot3(w, v)
  {
  }

  lemma RejectionPerpendicular(v: Vec3, u: Vec3)
    requires Dot3(u, u) == 1.0
    ensures Dot3(u, Rejection(v, u)) == 0.0
  {
    var d := Dot3(v, u);
    DotSub(u, v, Scale3(d, u));
    Dot3Scale(u, d, u);
    Dot3Symmetric(u, v);
    hide Dot3, Scale3, Sub3;
  }

  lemma CrossRejection(u: Vec3, v: Vec3)
    ensures Cross3(u, Rejection(v, u)) == Cross3(u, v)
  {
    hide Dot3, Cross3, Sub3, Scale3;
    var d := Dot3(v, u);
    Cross3ScaleRight(u, d, u);
    CrossSelf(u);
    CrossSub(u, v, Scale3(d, u));
    LessNothing(Cross3(u, v), d);
  }

  lemma LessNothing(v: Vec3, k: real)
    ensures Sub3(v, Scale3(k, ORIGIN)) == v
  {
  }

  lemma CrossSelf(u: Vec3)
    ensures Cross3(u, u) == ORIGIN
  {
  }

  lemma CrossSub(w: Vec3, u: Vec3, v: Vec3)
    ensures Cross3(w, Sub3(u, v)) == Sub3(Cross3(w, u), Cross3(w, v))
  {
  }

  /** The second number vanishes exactly when the first two rows are parallel. */
  lemma OrthogonalisableIff(sqrt: real -> real, a: Vec3, b: Vec3)
    requires IsSqrt(sqrt)
    ensures Orthogonalisable(sqrt, a, b) <==> Cross3(a, b) != ORIGIN
  {
    hide Dot3, Cross3, Scale3, Normalise, Rejection, Length;
    if Dot3(a, a) == 0.0 {
      SumOfSquares(a);
      CrossNothing(b);
    } else {
      RejectionVanishes(sqrt, a, b);
    }
  }

  lemma CrossNothing(v: Vec3)
    ensures Cross3(ORIGIN, v) == ORIGIN
  {
  }

  lemma RejectionVanishes(sqrt: real -> real, a: Vec3, b: Vec3)
    requires IsSqrt(sqrt) && Dot3(a, a) != 0.0
    ensures var w := Rejection(b, Normalise(sqrt, a)); Dot3(w, w) == 0.0 <==> Cross3(a, b) == ORIGIN
  {
    hide Dot3, Cross3, Scale3, Normalise, Rejection, Length;
    var u, s := Normalise(sqrt, a), Length(sqrt, a);
    var w := Rejection(b, u);
    NormaliseIsUnit(sqrt, a);
    RejectionPerpendicular(b, u);
    LagrangePerpendicular(u, w);
    CrossRejection(u, b);
    Cross3ScaleLeft(s, u, b);
    ScaledIsOrigin(s, Cross3(u, b));
    SumOfSquares(Cross3(u, b));
  }

  lemma ScaledIsOrigin(s: real, v: Vec3)
    requires s > 0.0
    ensures Scale3(s, v) == ORIGIN <==> v == ORIGIN
  {
    NonZeroProduct(s, v.x);
    NonZeroProduct(s, v.y);
    NonZeroProduct(s, v.z);
  }

  lemma NonZeroProduct(s: real, a: real)
    requires s > 0.0
    ensures s*a == 0.0 <==> a == 0.0
  {
    if a > 0.0 {
      MulPositive(s, a);
    } else if a < 0.0 {
      MulPositive(s, -a);
    }
  }

  // ---------------------------------------------------------------- what it gives

  lemma RowsAreProper(sqrt: real -> real, a: Vec3, b: Vec3)
    requires IsSqrt(sqrt) && Orthogonalisable(sqrt, a, b)
    ensures var (u, v, w) := Rows(sqrt, a, b); Proper(u, v, w)
  {
    var u := Normalise(sqrt, a);
    var r := Rejection(b, u);
    var v := Normalise(sqrt, r);
    NormaliseIsUnit(sqrt, a);
    NormaliseIsUnit(sqrt, r);
    RejectionPerpendicular(b, u);
    hide Dot3, Cross3, Scale3, Normalise, Rejection, Length, Proper;
    Dot3Scale(u, Length(sqrt, r), v);
    NonZeroProduct(Length(sqrt, r), Dot3(u, v));
    FrameIsProper(u, v, Cross3(u, v));
  }

  /**
   * The result's axes are those of a proper rotation, each times its scale, and nothing else in
   * the matrix changes. The first two original axes are combinations of the new ones with
   * positive leading factors.
   */
  lemma OrthogonaliseIsProper(sqrt: real -> real, m: Mat4, scale: Vec3)
    requires IsSqrt(sqrt) && Orthogonalisable(sqrt, Axis(m, 0), Axis(m, 1))
    ensures var (u, v, w) := Rows(sqrt, Axis(m, 0), Axis(m, 1));
      var o := Orthogonalise3x3(sqrt, m, scale);
      && Proper(u, v, w)
      && Axis(o, 0) == Scale3(scale.x, u) && Axis(o, 1) == Scale3(scale.y, v) && Axis(o, 2) == Scale3(scale.z, w)
      && Row(o, 3) == Row(m, 3) && Col(o, 3) == Col(m, 3)
      && Combines(Axis(m, 0), Axis(m, 1), u, v)
  {
    RowsAreProper(sqrt, Axis(m, 0), Axis(m, 1));
    Recombined(sqrt, Axis(m, 0), Axis(m, 1));
    hide Rows, Proper, Scale3, Combines;
  }

  /** a is a positive multiple of u, and b of v up to a multiple of u. */
  predicate Combines(a: Vec3, b: Vec3, u: Vec3, v: Vec3) {
    var p, q, r := Dot3(a, u), Dot3(b, u), Dot3(b, v);
    p > 0.0 && r > 0.0 && a == Scale3(p, u) && b == Add3(Scale3(q, u), Scale3(r, v))
  }

  lemma Recombined(sqrt: real -> real, a: Vec3, b: Vec3)
    requires IsSqrt(sqrt) && Orthogonalisable(sqrt, a, b)
    ensures var (u, v, w) := Rows(sqrt, a, b); Combines(a, b, u, v)
  {
    var u := Normalise(sqrt, a);
    var d := Rejection(b, u);
    var v := Normalise(sqrt, d);
    NormaliseIsUnit(sqrt, a);
    NormaliseIsUnit(sqrt, d);
    RejectionPerpendicular(b, u);
    var p, q, r := Length(sqrt, a), Dot3(b, u), Length(sqrt, d);
    assert b == Add3(Scale3(q, u), d);
    hide Dot3, Cross3, Scale3, Normalise, Rejection, Length, Add3;
    Dot3Symmetric(a, u);
    Dot3Scale(u, p, u);
    Dot3Scale(u, r, v);
    NonZeroProduct(r, Dot3(u, v));
    DotAdd(v, Scale3(q, u), Scale3(r, v));
    Dot3Scale(v, q, u);
    Dot3Scale(v, r, v);
    Dot3Symmetric(u, v);
    Dot3Symmetric(b, v);
  }

  lemma DotAdd(w: Vec3, u: Vec3, v: Vec3)
    ensures Dot3(w, Add3(u, v)) == Dot3(w, u) + Dot3(w, v)
  {
  }

  /** At unit scale, exactly the matrices whose axes are already a proper rotation are left alone. */
  lemma UnchangedIff(sqrt: real -> real, m: Mat4)
    requires IsSqrt(sqrt) && Orthogonalisable(sqrt, Axis(m, 0), Axis(m, 1))
    ensures Orthogonalise3x3(sqrt, m, UNIT_SCALE) == m <==> Proper(Axis(m, 0), Axis(m, 1), Axis(m, 2))
  {
    var a, b, c := Axis(m, 0), Axis(m, 1), Axis(m, 2);
    var (u, v, w) := Rows(sqrt, a, b);
    RowsAreProper(sqrt, a, b);
    OneTimes(u);
    OneTimes(v);
    OneTimes(w);
    SameAxesIff(m, u, v, w);
    hide Rows, Proper, Scale3, Axis;
    if Proper(a, b, c) {
      RowsOfProper(sqrt, a, b, c);
    }
  }

  lemma OneTimes(v: Vec3)
    ensures Scale3(1.0, v) == v
  {
  }

  lemma SameAxesIff(m: Mat4, a: Vec3, b: Vec3, c: Vec3)
    ensures WithAxes(m, a, b, c) == m <==> Axis(m, 0) == a && Axis(m, 1) == b && Axis(m, 2) == c
  {
  }

  lemma RowsOfProper(sqrt: real -> real, a: Vec3, b: Vec3, c: Vec3)
    requires IsSqrt(sqrt) && Proper(a, b, c) && Orthogonalisable(sqrt, a, b)
    ensures Rows(sqrt, a, b) == (a, b, c)
  {
    assert Dot3(a, a) == 1.0 && Dot3(b, b) == 1.0 && Dot3(a, b) == 0.0 && c == Cross3(a, b);
    hide Proper;
    RejectionOfPerpendicular(b, a);
    Dot3Symmetric(a, b);
    hide Dot3, Cross3, Rejection;
    NormaliseUnit(sqrt, a);
    NormaliseUnit(sqrt, b);
  }

  lemma RejectionOfPerpendicular(v: Vec3, u: Vec3)
    requires Dot3(v, u) == 0.0
    ensures Rejection(v, u) == v
  {
    var d := Dot3(v, u);
    assert Scale3(d, u) == ORIGIN;
  }

  lemma NormaliseUnit(sqrt: real -> real, v: Vec3)
    requires IsSqrt(sqrt) && Dot3(v, v) == 1.0
    ensures Normalise(sqrt, v) == v
  {
    hide Dot3;
    SqrtOfSquare(sqrt, 1.0, 1.0);
    OneTimes(v);
  }
}
