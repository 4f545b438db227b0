/** Right-handed orthonormal frames: the rows of a proper rotation. */
module Frames {
  import opened RealMath
  import opened Vector3

  // ---------------------------------------------------------------- length

  function Length(sqrt: real -> real, v: Vec3): real {
    sqrt(Dot3(v, v))
  }

  lemma LengthPositive(sqrt: real -> real, v: Vec3)
    requires IsSqrt(sqrt) && Dot3(v, v) > 0.0
    ensures Length(sqrt, v) > 0.0
  {
    hide Dot3;
    assert Length(sqrt, v) * Length(sqrt, v) == Dot3(v, v);
  }

  /** A unit vector in the direction of v, and the length that gives v back. */
  lemma Normalised(sqrt: real -> real, v: Vec3)
    requires IsSqrt(sqrt) && Dot3(v, v) > 0.0
    ensures var s := Length(sqrt, v);
      s > 0.0 && Dot3(Scale3(1.0 / s, v), Scale3(1.0 / s, v)) == 1.0 && Scale3(s, Scale3(1.0 / s, v)) == v
  {
    LengthPositive(sqrt, v);
    var s := Length(sqrt, v);
    var k := 1.0 / s;
    assert Scale3(s, Scale3(k, v)) == v by {
      Rescale(s, v.x);
      Rescale(s, v.y);
      Rescale(s, v.z);
    }
    Dot3Scale(Scale3(k, v), k, v);
    Dot3Symmetric(Scale3(k, v), v);
    Dot3Scale(v, k, v);
    hide Dot3, Scale3;
    assert Dot3(v, v) == s*s;
    assert k*(k*(s*s)) == (k*s)*(k*s);
    assert k*s == 1.0;
  }

  lemma Rescale(s: real, a: real)
    requires s != 0.0
    ensures s*((1.0 / s)*a) == a
  {
    assert s*((1.0 / s)*a) == (s*(1.0 / s))*a;
  }

  lemma SumOfSquares(v: Vec3)
    ensures Dot3(v, v) >= 0.0
    ensures Dot3(v, v) == 0.0 <==> v == ORIGIN
  {
    SquareNonNegative(v.x);
    SquareNonNegative(v.y);
    SquareNonNegative(v.z);
    assert Dot3(v, v) == Square(v.x) + Square(v.y) + Square(v.z);
    hide Dot3, Square;
  }

  // ---------------------------------------------------------------- frames

  predicate Orthonormal(a: Vec3, b: Vec3, c: Vec3) {
    && Dot3(a, a) == 1.0 && Dot3(b, b) == 1.0 && Dot3(c, c) == 1.0
    && Dot3(a, b) == 0.0 && Dot3(b, c) == 0.0 && Dot3(c, a) == 0.0
  }

  /** A proper rotation: each row the cross product of the others, rows and columns orthonormal. */
  predicate Proper(a: Vec3, b: Vec3, c: Vec3) {
    var u, v, w := Vec3(a.x, b.x, c.x), Vec3(a.y, b.y, c.y), Vec3(a.z, b.z, c.z);
    && a == Cross3(b, c) && b == Cross3(c, a) && c == Cross3(a, b)
    && Dot3(a, a) == 1.0 && Dot3(b, b) == 1.0 && Dot3(c, c) == 1.0
    && Dot3(a, b) == 0.0 && Dot3(b, c) == 0.0 && Dot3(c, a) == 0.0
    && Dot3(u, u) == 1.0 && Dot3(v, v) == 1.0 && Dot3(w, w) == 1.0
    && Dot3(u, v) == 0.0 && Dot3(v, w) == 0.0 && Dot3(w, u) == 0.0
  }

  lemma FrameIsProper(a: Vec3, b: Vec3, c: Vec3)
    requires Dot3(a, a) == 1.0 && Dot3(b, b) == 1.0 && Dot3(a, b) == 0.0 && c == Cross3(a, b)
    ensures Proper(a, b, c)
  {
    FrameCycles(a, b);
    Cross3Perpendicular(a, b);
    LagrangePerpendicular(a, b);
    Columns(a, b, c);
    hide Dot3, Cross3;
    Dot3Symmetric(b, c);
    Dot3Symmetric(c, a);
  }

  lemma FrameCycles(a: Vec3, b: Vec3)
    requires Dot3(a, a) == 1.0 && Dot3(b, b) == 1.0 && Dot3(a, b) == 0.0
    ensures Cross3(b, Cross3(a, b)) == a && Cross3(Cross3(a, b), a) == b
  {
    DoubleCross(b, a, b);
    DoubleCross(a, a, b);
    Dot3Symmetric(a, b);
    CrossSwap(Cross3(a, b), a);
    hide Dot3, Cross3;
  }

  lemma CrossSwap(u: Vec3, v: Vec3)
    ensures var p, q := Cross3(u, v), Cross3(v, u); p.x == -q.x && p.y == -q.y && p.z == -q.z
  {
  }

  predicate IsMinor(x: real, p: real, q: real, r: real, s: real) {
    x == p*s - q*r
  }

  lemma MinorTransposed(x: real, p: real, q: real, r: real, s: real)
    requires IsMinor(x, p, q, r, s)
    ensures IsMinor(x, p, r, q, s)
  {
  }

  /** The components of a cross product are minors. */
  lemma CrossIff(a: Vec3, b: Vec3, c: Vec3)
    ensures a == Cross3(b, c)
      <==> IsMinor(a.x, b.y, b.z, c.y, c.z) && IsMinor(a.y, b.z, b.x, c.z, c.x) && IsMinor(a.z, b.x, b.y, c.x, c.y)
  {
  }

  /** Rows that are each other's cross products have columns that are, too. */
  lemma CrossOfColumns(a: Vec3, b: Vec3, c: Vec3)
    requires a == Cross3(b, c) && b == Cross3(c, a) && c == Cross3(a, b)
    ensures var u, v, w := Vec3(a.x, b.x, c.x), Vec3(a.y, b.y, c.y), Vec3(a.z, b.z, c.z);
      u == Cross3(v, w) && v == Cross3(w, u) && w == Cross3(u, v)
  {
    hide IsMinor, Cross3;
    CrossIff(a, b, c);
    CrossIff(b, c, a);
    CrossIff(c, a, b);
    FirstColumn(a, b, c);
    FirstColumn(Vec3(a.y, a.z, a.x), Vec3(b.y, b.z, b.x), Vec3(c.y, c.z, c.x));
    FirstColumn(Vec3(a.z, a.x, a.y), Vec3(b.z, b.x, b.y), Vec3(c.z, c.x, c.y));
  }

  lemma FirstColumn(a: Vec3, b: Vec3, c: Vec3)
    requires IsMinor(a.x, b.y, b.z, c.y, c.z) && IsMinor(b.x, c.y, c.z, a.y, a.z) && IsMinor(c.x, a.y, a.z, b.y, b.z)
    ensures Vec3(a.x, b.x, c.x) == Cross3(Vec3(a.y, b.y, c.y), Vec3(a.z, b.z, c.z))
  {
    hide IsMinor, Cross3;
    MinorTransposed(a.x, b.y, b.z, c.y, c.z);
    MinorTransposed(b.x, c.y, c.z, a.y, a.z);
    MinorTransposed(c.x, a.y, a.z, b.y, b.z);
    CrossIff(Vec3(a.x, b.x, c.x), Vec3(a.y, b.y, c.y), Vec3(a.z, b.z, c.z));
  }

  lemma Columns(a: Vec3, b: Vec3, c: Vec3)
    requires a == Cross3(b, c) && b == Cross3(c, a) && c == Cross3(a, b) && Dot3(a, a) == 1.0
    ensures var u, v, w := Vec3(a.x, b.x, c.x), Vec3(a.y, b.y, c.y), Vec3(a.z, b.z, c.z);
      && Dot3(u, u) == 1.0 && Dot3(v, v) == 1.0 && Dot3(w, w) == 1.0
      && Dot3(u, v) == 0.0 && Dot3(v, w) == 0.0 && Dot3(w, u) == 0.0
  {
    hide Dot3, Cross3;
    var u, v, w := Vec3(a.x, b.x, c.x), Vec3(a.y, b.y, c.y), Vec3(a.z, b.z, c.z);
    CrossOfColumns(a, b, c);
    TripleOfColumns(a, b, c);
    Cross3Cyclic(u, v, w);
    Cross3Perpendicular(w, u);
    Cross3Perpendicular(u, v);
    Cross3Perpendicular(v, w);
    Dot3Symmetric(u, v);
    Dot3Symmetric(v, w);
    Dot3Symmetric(w, u);
  }

  lemma TripleOfColumns(a: Vec3, b: Vec3, c: Vec3)
    ensures Dot3(Vec3(a.x, b.x, c.x), Cross3(Vec3(a.y, b.y, c.y), Vec3(a.z, b.z, c.z))) == Dot3(a, Cross3(b, c))
  {
    Triple(a, b, c);
    Triple(Vec3(a.x, b.x, c.x), Vec3(a.y, b.y, c.y), Vec3(a.z, b.z, c.z));
  }

  /** An orthonormal frame is right-handed when its triple product is positive. */
  lemma RightHanded(a: Vec3, b: Vec3, c: Vec3)
    requires Dot3(a, a) == 1.0 && Dot3(b, b) == 1.0 && Dot3(c, c) == 1.0
    requires Dot3(a, b) == 0.0 && Dot3(b, c) == 0.0 && Dot3(c, a) == 0.0
    requires Dot3(c, Cross3(a, b)) > 0.0
    ensures c == Cross3(a, b)
  {
    var w, t := Cross3(a, b), Dot3(c, Cross3(a, b));
    DetOfOrthogonal(a, b, c);
    Dot3Symmetric(b, c);
    PerpendicularToBoth(c, a, b);
    DoubleCross(c, c, w);
    CrossOrigin(c);
    hide Dot3, Cross3;
    SameSquares(t, 1.0);
  }

  lemma CrossOrigin(u: Vec3)
    ensures Cross3(u, ORIGIN) == ORIGIN
  {
  }
}
