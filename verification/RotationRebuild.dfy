/**
 * The other direction of the decomposition: every proper rotation with positive scale is
 * rebuilt from its parts, so MakeAffineQuaternion reaches all of them.
 */
module RotationRebuild {
  import opened RealMath
  import opened Vector3
  import opened Frames
  import opened Matrix4
  import opened AffineMatrix
  import opened RotationMatrix
  import opened AffineDecomposition
  import Q = Quaternion

  function Times4(u: real, v: real): real {
    4.0*u*v
  }

  /** The products of a quaternion's components, read off the axes of its matrix. */
  predicate Quadratic(q: Quat, a: Vec3, b: Vec3, c: Vec3) {
    && Times4(q.w, q.w) == 1.0 + a.x + b.y + c.z
    && Times4(q.x, q.x) == 1.0 + a.x - b.y - c.z
    && Times4(q.y, q.y) == 1.0 + b.y - c.z - a.x
    && Times4(q.z, q.z) == 1.0 + c.z - a.x - b.y
    && Times4(q.w, q.x) == b.z - c.y
    && Times4(q.w, q.y) == c.x - a.z
    && Times4(q.w, q.z) == a.y - b.x
    && Times4(q.x, q.y) == a.y + b.x
    && Times4(q.y, q.z) == b.z + c.y
    && Times4(q.x, q.z) == c.x + a.z
  }

  predicate SameProduct(r: real, s: real, n: real, k: real) {
    r*s == n*k
  }

  /** n times a table of products equals the products of the row r1, r2, r3. */
  predicate RankOne(n: real, r1: real, r2: real, r3: real, k11: real, k22: real, k33: real, k12: real, k13: real,
      k23: real) {
    && SameProduct(r1, r1, n, k11) && SameProduct(r2, r2, n, k22) && SameProduct(r3, r3, n, k33)
    && SameProduct(r1, r2, n, k12) && SameProduct(r1, r3, n, k13) && SameProduct(r2, r3, n, k23)
  }

  // The table of those products has rank one. First its squares, then one lemma per pivot.

  predicate UnitSquares(u: real, v: real, w: real) {
    u*u + v*v + w*w == 1.0
  }

  lemma UnitSquaresOf(v: Vec3)
    requires Dot3(v, v) == 1.0
    ensures UnitSquares(v.x, v.y, v.z) && UnitSquares(v.y, v.z, v.x) && UnitSquares(v.z, v.x, v.y)
  {
  }

  /** An entry of a proper rotation, with the two rows of its minor. */
  predicate IsPivot(p: real, b0: real, b1: real, b2: real, c0: real, c1: real, c2: real) {
    IsMinor(p, b1, b2, c1, c2) && UnitSquares(p, b0, c0) && UnitSquares(b0, b1, b2) && UnitSquares(c0, c1, c2)
  }

  lemma Pivots(a: Vec3, b: Vec3, c: Vec3)
    requires Proper(a, b, c)
    ensures IsPivot(a.x, b.x, b.y, b.z, c.x, c.y, c.z)
    ensures IsPivot(b.y, c.y, c.z, c.x, a.y, a.z, a.x)
    ensures IsPivot(c.z, a.z, a.x, a.y, b.z, b.x, b.y)
  {
    hide Cross3, Dot3, IsMinor, UnitSquares;
    CrossIff(a, b, c);
    CrossIff(b, c, a);
    CrossIff(c, a, b);
    UnitSquaresOf(a);
    UnitSquaresOf(b);
    UnitSquaresOf(c);
    UnitSquaresOf(Vec3(a.x, b.x, c.x));
    UnitSquaresOf(Vec3(a.y, b.y, c.y));
    UnitSquaresOf(Vec3(a.z, b.z, c.z));
  }

  lemma SquareOfSum(u: real, v: real)
    ensures (u + v)*(u + v) == u*u + 2.0*(u*v) + v*v && (u - v)*(u - v) == u*u - 2.0*(u*v) + v*v
  {
  }

  lemma DifferenceOfSquares(u: real, v: real)
    ensures (u + v)*(u - v) == u*u - v*v
  {
  }

  lemma PivotSquares(p: real, b0: real, b1: real, b2: real, c0: real, c1: real, c2: real, w: real, x: real, y: real,
      z: real)
    requires IsPivot(p, b0, b1, b2, c0, c1, c2)
    requires w == 1.0 + p + b1 + c2 && x == 1.0 + p - b1 - c2 && y == 1.0 + b1 - c2 - p && z == 1.0 + c2 - p - b1
    ensures SameProduct(b2 - c1, b2 - c1, w, x) && SameProduct(b2 - c1, b2 - c1, x, w)
    ensures SameProduct(b2 + c1, b2 + c1, y, z) && SameProduct(b2 + c1, b2 + c1, z, y)
  {
    var wx, yz, minus, plus := w*x, y*z, (b2 - c1)*(b2 - c1), (b2 + c1)*(b2 + c1);
    assert wx == 1.0 + 2.0*p + p*p - (b1*b1 + 2.0*(b1*c2) + c2*c2) by {
      hide IsPivot;
      DifferenceOfSquares(1.0 + p, b1 + c2);
      SquareOfSum(1.0, p);
      SquareOfSum(b1, c2);
    }
    assert yz == 1.0 - 2.0*p + p*p - (b1*b1 - 2.0*(b1*c2) + c2*c2) by {
      hide IsPivot;
      DifferenceOfSquares(1.0 - p, b1 - c2);
      SquareOfSum(1.0, p);
      SquareOfSum(b1, c2);
    }
    assert minus == b2*b2 - 2.0*(b2*c1) + c1*c1 && plus == b2*b2 + 2.0*(b2*c1) + c1*c1 by {
      hide IsPivot;
      SquareOfSum(b2, c1);
    }
    PivotLinear(p, p*p, b0*b0, b1*b1, b2*b2, c0*c0, c1*c1, c2*c2, b1*c2, b2*c1, wx, yz, minus, plus);
    Commutes(w, x, wx);
    Commutes(y, z, yz);
    hide IsPivot;
  }

  lemma Commutes(u: real, v: real, uv: real)
    requires uv == u*v
    ensures uv == v*u
  {
  }

  lemma PivotLinear(p: real, pp: real, b00: real, b11: real, b22: real, c00: real, c11: real, c22: real,
      b1c2: real, b2c1: real, wx: real, yz: real, minus: real, plus: real)
    requires p == b1c2 - b2c1 && pp + b00 + c00 == 1.0 && b00 + b11 + b22 == 1.0 && c00 + c11 + c22 == 1.0
    requires wx == 1.0 + 2.0*p + pp - (b11 + 2.0*b1c2 + c22) && yz == 1.0 - 2.0*p + pp - (b11 - 2.0*b1c2 + c22)
    requires minus == b22 - 2.0*b2c1 + c11 && plus == b22 + 2.0*b2c1 + c11
    ensures minus == wx && plus == yz
  {
  }

  lemma SquaresX(a: Vec3, b: Vec3, c: Vec3, w: real, x: real, y: real, z: real)
    requires Proper(a, b, c)
    requires w == 1.0 + a.x + b.y + c.z && x == 1.0 + a.x - b.y - c.z && y == 1.0 + b.y - c.z - a.x
      && z == 1.0 + c.z - a.x - b.y
    ensures SameProduct(b.z - c.y, b.z - c.y, w, x) && SameProduct(b.z - c.y, b.z - c.y, x, w)
    ensures SameProduct(b.z + c.y, b.z + c.y, y, z) && SameProduct(b.z + c.y, b.z + c.y, z, y)
  {
    Pivots(a, b, c);
    hide SameProduct, Proper, IsPivot;
    PivotSquares(a.x, b.x, b.y, b.z, c.x, c.y, c.z, w, x, y, z);
  }

  lemma SquaresY(a: Vec3, b: Vec3, c: Vec3, w: real, x: real, y: real, z: real)
    requires Proper(a, b, c)
    requires w == 1.0 + a.x + b.y + c.z && x == 1.0 + a.x - b.y - c.z && y == 1.0 + b.y - c.z - a.x
      && z == 1.0 + c.z - a.x - b.y
    ensures SameProduct(c.x - a.z, c.x - a.z, w, y) && SameProduct(c.x - a.z, c.x - a.z, y, w)
    ensures SameProduct(c.x + a.z, c.x + a.z, z, x) && SameProduct(c.x + a.z, c.x + a.z, x, z)
  {
    Pivots(a, b, c);
    hide SameProduct, Proper, IsPivot;
    PivotSquares(b.y, c.y, c.z, c.x, a.y, a.z, a.x, w, y, z, x);
  }

  lemma SquaresZ(a: Vec3, b: Vec3, c: Vec3, w: real, x: real, y: real, z: real)
    requires Proper(a, b, c)
    requires w == 1.0 + a.x + b.y + c.z && x == 1.0 + a.x - b.y - c.z && y == 1.0 + b.y - c.z - a.x
      && z == 1.0 + c.z - a.x - b.y
    ensures SameProduct(a.y - b.x, a.y - b.x, w, z) && SameProduct(a.y - b.x, a.y - b.x, z, w)
    ensures SameProduct(a.y + b.x, a.y + b.x, x, y) && SameProduct(a.y + b.x, a.y + b.x, y, x)
  {
    Pivots(a, b, c);
    hide SameProduct, Proper, IsPivot;
    PivotSquares(c.z, a.z, a.x, a.y, b.z, b.x, b.y, w, z, x, y);
  }

  lemma RankOneW(a: Vec3, b: Vec3, c: Vec3)
    requires Proper(a, b, c)
    ensures RankOne(1.0 + a.x + b.y + c.z, b.z - c.y, c.x - a.z, a.y - b.x,
      1.0 + a.x - b.y - c.z, 1.0 + b.y - c.z - a.x, 1.0 + c.z - a.x - b.y, a.y + b.x, c.x + a.z, b.z + c.y)
  {
    ProductsW(a, b, c);
    hide Proper, SameProduct;
    var w, x, y, z := 1.0 + a.x + b.y + c.z, 1.0 + a.x - b.y - c.z, 1.0 + b.y - c.z - a.x, 1.0 + c.z - a.x - b.y;
    SquaresX(a, b, c, w, x, y, z);
    SquaresY(a, b, c, w, x, y, z);
    SquaresZ(a, b, c, w, x, y, z);
  }

  lemma ProductsW(a: Vec3, b: Vec3, c: Vec3)
    requires Proper(a, b, c)
    ensures SameProduct(b.z - c.y, c.x - a.z, 1.0 + a.x + b.y + c.z, a.y + b.x)
    ensures SameProduct(b.z - c.y, a.y - b.x, 1.0 + a.x + b.y + c.z, c.x + a.z)
    ensures SameProduct(c.x - a.z, a.y - b.x, 1.0 + a.x + b.y + c.z, b.z + c.y)
  {
  }

  lemma RankOneX(a: Vec3, b: Vec3, c: Vec3)
    requires Proper(a, b, c)
    ensures RankOne(1.0 + a.x - b.y - c.z, b.z - c.y, a.y + b.x, c.x + a.z,
      1.0 + a.x + b.y + c.z, 1.0 + b.y - c.z - a.x, 1.0 + c.z - a.x - b.y, c.x - a.z, a.y - b.x, b.z + c.y)
  {
    ProductsX(a, b, c);
    hide Proper, SameProduct;
    var w, x, y, z := 1.0 + a.x + b.y + c.z, 1.0 + a.x - b.y - c.z, 1.0 + b.y - c.z - a.x, 1.0 + c.z - a.x - b.y;
    SquaresX(a, b, c, w, x, y, z);
    SquaresY(a, b, c, w, x, y, z);
    SquaresZ(a, b, c, w, x, y, z);
  }

  lemma ProductsX(a: Vec3, b: Vec3, c: Vec3)
    requires Proper(a, b, c)
    ensures SameProduct(b.z - c.y, a.y + b.x, 1.0 + a.x - b.y - c.z, c.x - a.z)
    ensures SameProduct(b.z - c.y, c.x + a.z, 1.0 + a.x - b.y - c.z, a.y - b.x)
    ensures SameProduct(a.y + b.x, c.x + a.z, 1.0 + a.x - b.y - c.z, b.z + c.y)
  {
  }

  lemma RankOneY(a: Vec3, b: Vec3, c: Vec3)
    requires Proper(a, b, c)
    ensures RankOne(1.0 + b.y - c.z - a.x, c.x - a.z, a.y + b.x, b.z + c.y,
      1.0 + a.x + b.y + c.z, 1.0 + a.x - b.y - c.z, 1.0 + c.z - a.x - b.y, b.z - c.y, a.y - b.x, c.x + a.z)
  {
    ProductsY(a, b, c);
    hide Proper, SameProduct;
    var w, x, y, z := 1.0 + a.x + b.y + c.z, 1.0 + a.x - b.y - c.z, 1.0 + b.y - c.z - a.x, 1.0 + c.z - a.x - b.y;
    SquaresX(a, b, c, w, x, y, z);
    SquaresY(a, b, c, w, x, y, z);
    SquaresZ(a, b, c, w, x, y, z);
  }

  lemma ProductsY(a: Vec3, b: Vec3, c: Vec3)
    requires Proper(a, b, c)
    ensures SameProduct(c.x - a.z, a.y + b.x, 1.0 + b.y - c.z - a.x, b.z - c.y)
    ensures SameProduct(c.x - a.z, b.z + c.y, 1.0 + b.y - c.z - a.x, a.y - b.x)
    ensures SameProduct(a.y + b.x, b.z + c.y, 1.0 + b.y - c.z - a.x, c.x + a.z)
  {
  }

  lemma RankOneZ(a: Vec3, b: Vec3, c: Vec3)
    requires Proper(a, b, c)
    ensures RankOne(1.0 + c.z - a.x - b.y, a.y - b.x, c.x + a.z, b.z + c.y,
      1.0 + a.x + b.y + c.z, 1.0 + a.x - b.y - c.z, 1.0 + b.y - c.z - a.x, b.z - c.y, c.x - a.z, a.y + b.x)
  {
    ProductsZ(a, b, c);
    hide Proper, SameProduct;
    var w, x, y, z := 1.0 + a.x + b.y + c.z, 1.0 + a.x - b.y - c.z, 1.0 + b.y - c.z - a.x, 1.0 + c.z - a.x - b.y;
    SquaresX(a, b, c, w, x, y, z);
    SquaresY(a, b, c, w, x, y, z);
    SquaresZ(a, b, c, w, x, y, z);
  }

  lemma ProductsZ(a: Vec3, b: Vec3, c: Vec3)
    requires Proper(a, b, c)
    ensures SameProduct(a.y - b.x, c.x + a.z, 1.0 + c.z - a.x - b.y, b.z - c.y)
    ensures SameProduct(a.y - b.x, b.z + c.y, 1.0 + c.z - a.x - b.y, c.x - a.z)
    ensures SameProduct(c.x + a.z, b.z + c.y, 1.0 + c.z - a.x - b.y, a.y + b.x)
  {
  }

  function Over(r: real, d: real): real
    requires d != 0.0
  {
    r*(0.5 / d)
  }

  /** A row of a rank-one table, scaled by half the root of its pivot, squares to the table. */
  lemma PivotRow(d: real, n: real, r1: real, r2: real, r3: real, k11: real, k22: real, k33: real, k12: real,
      k13: real, k23: real)
    requires d >= 1.0 && n == d*d
    requires RankOne(n, r1, r2, r3, k11, k22, k33, k12, k13, k23)
    ensures var p, o1, o2, o3 := 0.5*d, Over(r1, d), Over(r2, d), Over(r3, d);
      && Times4(p, p) == n
      && Times4(p, o1) == Times4(o1, p) == r1 && Times4(p, o2) == Times4(o2, p) == r2
        && Times4(p, o3) == Times4(o3, p) == r3
      && Times4(o1, o1) == k11 && Times4(o2, o2) == k22 && Times4(o3, o3) == k33
      && Times4(o1, o2) == k12 && Times4(o1, o3) == k13 && Times4(o2, o3) == k23
  {
    hide Times4, Over;
    PivotWith(d, n, r1);
    PivotWith(d, n, r2);
    PivotWith(d, n, r3);
    PivotPair(d, n, r1, r1, k11);
    PivotPair(d, n, r2, r2, k22);
    PivotPair(d, n, r3, r3, k33);
    PivotPair(d, n, r1, r2, k12);
    PivotPair(d, n, r1, r3, k13);
    PivotPair(d, n, r2, r3, k23);
  }

  lemma PivotWith(d: real, n: real, r: real)
    requires d >= 1.0 && n == d*d
    ensures Times4(0.5*d, 0.5*d) == n
    ensures Times4(0.5*d, Over(r, d)) == Times4(Over(r, d), 0.5*d) == r
  {
    var k := 0.5 / d;
    assert k*d == 0.5;
    assert 4.0*(0.5*d)*(r*k) == 2.0*r*(k*d);
  }

  lemma PivotPair(d: real, n: real, r: real, s: real, e: real)
    requires d >= 1.0 && n == d*d && r*s == n*e
    ensures Times4(Over(r, d), Over(s, d)) == e
  {
    var k := 0.5 / d;
    assert k*d == 0.5;
    assert (k*d)*(k*d) == 0.25;
    assert 4.0*(r*k)*(s*k) == 4.0*(k*k)*(r*s);
    assert 4.0*(k*k)*(n*e) == 4.0*((k*d)*(k*d))*e;
  }

  lemma ExtractAsOver(sqrt: real -> real, a: Vec3, b: Vec3, c: Vec3)
    requires IsSqrt(sqrt)
    ensures var d, q := sqrt(DivisorSquared(a, b, c)), Extract(sqrt, a, b, c);
      d >= 1.0 && q == match ChoosePivot(a, b, c)
        case ByW => Q.Quat(0.5*d, Over(b.z - c.y, d), Over(c.x - a.z, d), Over(a.y - b.x, d))
        case ByX => Q.Quat(Over(b.z - c.y, d), 0.5*d, Over(a.y + b.x, d), Over(c.x + a.z, d))
        case ByY => Q.Quat(Over(c.x - a.z, d), Over(a.y + b.x, d), 0.5*d, Over(b.z + c.y, d))
        case ByZ => Q.Quat(Over(a.y - b.x, d), Over(c.x + a.z, d), Over(b.z + c.y, d), 0.5*d)
  {
    hide ChoosePivot, DivisorSquared;
    DivisorAtLeastOne(sqrt, a, b, c);
  }

  lemma ExtractedByW(sqrt: real -> real, a: Vec3, b: Vec3, c: Vec3)
    requires IsSqrt(sqrt) && Proper(a, b, c) && ChoosePivot(a, b, c) == ByW
    ensures Quadratic(Extract(sqrt, a, b, c), a, b, c)
  {
    hide Proper, ChoosePivot, Times4, RankOne, Over, Extract;
    ExtractAsOver(sqrt, a, b, c);
    DivisorAtLeastOne(sqrt, a, b, c);
    RankOneW(a, b, c);
    PivotRow(sqrt(DivisorSquared(a, b, c)), 1.0 + a.x + b.y + c.z, b.z - c.y, c.x - a.z, a.y - b.x,
      1.0 + a.x - b.y - c.z, 1.0 + b.y - c.z - a.x, 1.0 + c.z - a.x - b.y, a.y + b.x, c.x + a.z, b.z + c.y);
  }

  lemma ExtractedByX(sqrt: real -> real, a: Vec3, b: Vec3, c: Vec3)
    requires IsSqrt(sqrt) && Proper(a, b, c) && ChoosePivot(a, b, c) == ByX
    ensures Quadratic(Extract(sqrt, a, b, c), a, b, c)
  {
    hide Proper, ChoosePivot, Times4, RankOne, Over, Extract;
    ExtractAsOver(sqrt, a, b, c);
    DivisorAtLeastOne(sqrt, a, b, c);
    RankOneX(a, b, c);
    PivotRow(sqrt(DivisorSquared(a, b, c)), 1.0 + a.x - b.y - c.z, b.z - c.y, a.y + b.x, c.x + a.z,
      1.0 + a.x + b.y + c.z, 1.0 + b.y - c.z - a.x, 1.0 + c.z - a.x - b.y, c.x - a.z, a.y - b.x, b.z + c.y);
  }

  lemma ExtractedByY(sqrt: real -> real, a: Vec3, b: Vec3, c: Vec3)
    requires IsSqrt(sqrt) && Proper(a, b, c) && ChoosePivot(a, b, c) == ByY
    ensures Quadratic(Extract(sqrt, a, b, c), a, b, c)
  {
    hide Proper, ChoosePivot, Times4, RankOne, Over, Extract;
    ExtractAsOver(sqrt, a, b, c);
    DivisorAtLeastOne(sqrt, a, b, c);
    RankOneY(a, b, c);
    PivotRow(sqrt(DivisorSquared(a, b, c)), 1.0 + b.y - c.z - a.x, c.x - a.z, a.y + b.x, b.z + c.y,
      1.0 + a.x + b.y + c.z, 1.0 + a.x - b.y - c.z, 1.0 + c.z - a.x - b.y, b.z - c.y, a.y - b.x, c.x + a.z);
  }

  lemma ExtractedByZ(sqrt: real -> real, a: Vec3, b: Vec3, c: Vec3)
    requires IsSqrt(sqrt) && Proper(a, b, c) && ChoosePivot(a, b, c) == ByZ
    ensures Quadratic(Extract(sqrt, a, b, c), a, b, c)
  {
    hide Proper, ChoosePivot, Times4, RankOne, Over, Extract;
    ExtractAsOver(sqrt, a, b, c);
    DivisorAtLeastOne(sqrt, a, b, c);
    RankOneZ(a, b, c);
    PivotRow(sqrt(DivisorSquared(a, b, c)), 1.0 + c.z - a.x - b.y, a.y - b.x, c.x + a.z, b.z + c.y,
      1.0 + a.x + b.y + c.z, 1.0 + a.x - b.y - c.z, 1.0 + b.y - c.z - a.x, b.z - c.y, c.x - a.z, a.y + b.x);
  }

  lemma ExtractedIsQuadratic(sqrt: real -> real, a: Vec3, b: Vec3, c: Vec3)
    requires IsSqrt(sqrt) && Proper(a, b, c)
    ensures Quadratic(Extract(sqrt, a, b, c), a, b, c)
  {
    hide Proper, Quadratic, Extract, ChoosePivot;
    match ChoosePivot(a, b, c)
    case ByW => ExtractedByW(sqrt, a, b, c);
    case ByX => ExtractedByX(sqrt, a, b, c);
    case ByY => ExtractedByY(sqrt, a, b, c);
    case ByZ => ExtractedByZ(sqrt, a, b, c);
  }

  lemma Axis0ByProducts(q: Quat)
    ensures var a := Axis(Rotation(q), 0);
      && 2.0*a.x == 2.0 - Times4(q.y, q.y) - Times4(q.z, q.z)
      && 2.0*a.y == Times4(q.x, q.y) + Times4(q.w, q.z)
      && 2.0*a.z == Times4(q.x, q.z) - Times4(q.w, q.y)
  {
    AllAxes(q);
    hide Rotation, Axis;
  }

  lemma Axis1ByProducts(q: Quat)
    ensures var b := Axis(Rotation(q), 1);
      && 2.0*b.x == Times4(q.x, q.y) - Times4(q.w, q.z)
      && 2.0*b.y == 2.0 - Times4(q.x, q.x) - Times4(q.z, q.z)
      && 2.0*b.z == Times4(q.y, q.z) + Times4(q.w, q.x)
  {
    AllAxes(q);
    hide Rotation, Axis;
  }

  lemma Axis2ByProducts(q: Quat)
    ensures var c := Axis(Rotation(q), 2);
      && 2.0*c.x == Times4(q.x, q.z) + Times4(q.w, q.y)
      && 2.0*c.y == Times4(q.y, q.z) - Times4(q.w, q.x)
      && 2.0*c.z == 2.0 - Times4(q.x, q.x) - Times4(q.y, q.y)
  {
    AllAxes(q);
    hide Rotation, Axis;
  }

  lemma NormByProducts(q: Quat)
    ensures 4.0*Q.NormSquared(q) == Times4(q.w, q.w) + Times4(q.x, q.x) + Times4(q.y, q.y) + Times4(q.z, q.z)
  {
  }

  /** A quaternion with the right products is a unit one, and its matrix has the given axes. */
  lemma QuadraticIsRotation(q: Quat, a: Vec3, b: Vec3, c: Vec3)
    requires Quadratic(q, a, b, c)
    ensures Q.NormSquared(q) == 1.0
    ensures Axis(Rotation(q), 0) == a && Axis(Rotation(q), 1) == b && Axis(Rotation(q), 2) == c
  {
    hide Rotation, Axis, Times4, Q.NormSquared;
    Axis0ByProducts(q);
    Axis1ByProducts(q);
    Axis2ByProducts(q);
    NormByProducts(q);
  }

  // ---------------------------------------------------------------- rebuilding

  lemma PositiveFactors(i: real, j: real, k: real, t: real)
    requires i > 0.0 && j > 0.0 && k > 0.0
    ensures k*(i*(j*t)) > 0.0 <==> t > 0.0
  {
    SignKept(j, t);
    SignKept(i, j*t);
    SignKept(k, i*(j*t));
  }

  lemma SignKept(k: real, t: real)
    requires k > 0.0
    ensures k*t > 0.0 <==> t > 0.0
  {
    if t > 0.0 {
      MulPositive(k, t);
    } else if t < 0.0 {
      MulPositive(k, -t);
    }
  }

  /** The quaternion taken from a right-handed orthonormal frame is the rotation onto it. */
  lemma ExtractFromFrame(sqrt: real -> real, a: Vec3, b: Vec3, c: Vec3)
    requires IsSqrt(sqrt) && Orthonormal(a, b, c) && Dot3(c, Cross3(a, b)) > 0.0
    ensures var q := Extract(sqrt, a, b, c);
      Q.NormSquared(q) == 1.0 && Axis(Rotation(q), 0) == a && Axis(Rotation(q), 1) == b && Axis(Rotation(q), 2) == c
  {
    RightHanded(a, b, c);
    FrameIsProper(a, b, c);
    hide Proper, Quadratic, Extract, Rotation, Axis, Q.NormSquared, Dot3, Cross3;
    ExtractedIsQuadratic(sqrt, a, b, c);
    QuadraticIsRotation(Extract(sqrt, a, b, c), a, b, c);
  }

  /**
   * The condition under which a matrix is the product of a positive scale, a rotation and a
   * translation: orthogonal axes and a positive determinant.
   */
  predicate RightHandedAxes(m: Mat4) {
    OrthogonalAxes(m) && DetUpper(m) > 0.0
  }

  lemma Rebuild(sqrt: real -> real, m: Mat4)
    requires IsSqrt(sqrt) && IsAffine(m) && NonSingular(m) && RightHandedAxes(m)
    ensures var parts := DecomposeAffineQuaternion(sqrt, m);
      Q.NormSquared(parts.rotation) == 1.0 && MakeAffineQuaternion(parts.rotation, parts.position, parts.scale) == m
  {
    var r0, r1, r2 := Axis(m, 0), Axis(m, 1), Axis(m, 2);
    var parts := DecomposeAffineQuaternion(sqrt, m);
    var i, j, k := 1.0 / parts.scale.x, 1.0 / parts.scale.y, 1.0 / parts.scale.z;
    Normalised(sqrt, r0);
    Normalised(sqrt, r1);
    Normalised(sqrt, r2);
    ScaledDot(i, r0, j, r1);
    ScaledDot(j, r1, k, r2);
    ScaledDot(k, r2, i, r0);
    DetUpperIsTriple(m);
    Cross3Cyclic(r0, r1, r2);
    ScaledTriple(i, r0, j, r1, k, r2);
    MadeIsAffine(parts.rotation, parts.position, parts.scale);
    hide Dot3, Cross3, Scale3, Extract, Axis, Length, Rotation, MakeAffineQuaternion, Q.NormSquared, DetUpper;
    PositiveFactors(i, j, k, Dot3(r2, Cross3(r0, r1)));
    ExtractFromFrame(sqrt, Scale3(i, r0), Scale3(j, r1), Scale3(k, r2));
    MadeAxes(parts.rotation, parts.position, parts.scale);
    SameAxes(MakeAffineQuaternion(parts.rotation, parts.position, parts.scale), m);
  }

  lemma MadeIsAffine(q: Quat, position: Vec3, scale: Vec3)
    ensures IsAffine(MakeAffineQuaternion(q, position, scale))
  {
  }

  // ---------------------------------------------------------------- only those

  lemma AxisNorms(q: Quat)
    ensures var n, r := Q.NormSquared(q) - 1.0, Rotation(q);
      && Dot3(Axis(r, 0), Axis(r, 0)) == 1.0 + 4.0*(q.y*q.y + q.z*q.z)*n
      && Dot3(Axis(r, 1), Axis(r, 1)) == 1.0 + 4.0*(q.z*q.z + q.x*q.x)*n
      && Dot3(Axis(r, 2), Axis(r, 2)) == 1.0 + 4.0*(q.x*q.x + q.y*q.y)*n
  {
    AxisNorm(q);
    AxisNorm(Q.Cycle(q));
    AxisNorm(Q.Cycle(Q.Cycle(q)));
    AxisCycle(q);
    AxisCycle(Q.Cycle(q));
    hide Rotation, Axis, Dot3, Q.NormSquared;
    CycleDot(Axis(Rotation(q), 1));
    CycleDot(Axis(Rotation(q), 2));
    CycleDot(Q.Cycle3(Axis(Rotation(q), 2)));
    CycleNorm(q);
    CycleNorm(Q.Cycle(q));
  }

  lemma CycleNorm(q: Quat)
    ensures Q.NormSquared(Q.Cycle(q)) == Q.NormSquared(q)
  {
  }

  lemma CycleDot(v: Vec3)
    ensures Dot3(Q.Cycle3(v), Q.Cycle3(v)) == Dot3(v, v)
  {
  }

  lemma AxisNorm(q: Quat)
    ensures Dot3(Axis(Rotation(q), 0), Axis(Rotation(q), 0)) == 1.0 + 4.0*(q.y*q.y + q.z*q.z)*(Q.NormSquared(q) - 1.0)
  {
    AllAxes(q);
    AxisNormExpanded(q.w, q.x, q.y, q.z, Q.NormSquared(q));
    hide *;
  }

  lemma AxisNormExpanded(w: real, x: real, y: real, z: real, n: real)
    requires n == w*w + x*x + y*y + z*z
    ensures var a := Vec3(1.0 - 2.0*y*y - 2.0*z*z, 2.0*x*y + 2.0*w*z, 2.0*z*x - 2.0*w*y);
      Dot3(a, a) == 1.0 + 4.0*(y*y + z*z)*(n - 1.0)
  {
    assert (y*y + z*z)*n == (y*y + z*z)*(w*w + x*x + y*y + z*z);
    var xy, wz, zx, wy := x*y, w*z, z*x, w*y;
    assert (2.0*x*y + 2.0*w*z)*(2.0*x*y + 2.0*w*z) == 4.0*(xy*xy) + 8.0*(xy*wz) + 4.0*(wz*wz);
    assert (2.0*z*x - 2.0*w*y)*(2.0*z*x - 2.0*w*y) == 4.0*(zx*zx) - 8.0*(zx*wy) + 4.0*(wy*wy);
  }

  lemma NoVectorAxes(q: Quat)
    requires q.x == 0.0 && q.y == 0.0 && q.z == 0.0
    ensures Axis(Rotation(q), 0) == E0 && Axis(Rotation(q), 1) == E1 && Axis(Rotation(q), 2) == E2
  {
    AllAxes(q);
    hide Rotation, Axis;
  }

  /** If its matrix has unit axes, the quaternion is a unit one or has no vector part. */
  lemma UnitAxes(q: Quat)
    requires var r := Rotation(q);
      Dot3(Axis(r, 0), Axis(r, 0)) == 1.0 && Dot3(Axis(r, 1), Axis(r, 1)) == 1.0 && Dot3(Axis(r, 2), Axis(r, 2)) == 1.0
    ensures Orthonormal(Axis(Rotation(q), 0), Axis(Rotation(q), 1), Axis(Rotation(q), 2))
    ensures Cross3(Axis(Rotation(q), 0), Axis(Rotation(q), 1)) == Axis(Rotation(q), 2)
  {
    hide Rotation, Axis, Dot3, Cross3, Q.NormSquared, DetUpper;
    if Q.NormSquared(q) == 1.0 {
      RotationIsProper(q);
    } else {
      AxisNorms(q);
      NoVectorPart(q.x, q.y, q.z, Q.NormSquared(q) - 1.0);
      NoVectorAxes(q);
      BasisProducts();
    }
  }

  lemma NoVectorPart(x: real, y: real, z: real, n: real)
    requires n != 0.0
    requires 4.0*(y*y + z*z)*n == 0.0 && 4.0*(z*z + x*x)*n == 0.0 && 4.0*(x*x + y*y)*n == 0.0
    ensures x == 0.0 && y == 0.0 && z == 0.0
  {
    assert Square(y) + Square(z) == 0.0 && Square(z) + Square(x) == 0.0;
    hide Square;
    SquareNonNegative(x);
    SquareNonNegative(y);
    SquareNonNegative(z);
  }

  lemma RebuiltAxis(s: real, v: Vec3, w: Vec3)
    requires s > 0.0 && v == Scale3(s, w) && Dot3(Scale3(1.0 / s, v), Scale3(1.0 / s, v)) == 1.0
    ensures Dot3(w, w) == 1.0
  {
    Unscale(s, w.x);
    Unscale(s, w.y);
    Unscale(s, w.z);
    assert Scale3(1.0 / s, Scale3(s, w)) == w;
  }

  lemma OnlyRightHanded(sqrt: real -> real, m: Mat4)
    requires IsSqrt(sqrt) && NonSingular(m)
    requires var parts := DecomposeAffineQuaternion(sqrt, m);
      MakeAffineQuaternion(parts.rotation, parts.position, parts.scale) == m
    ensures RightHandedAxes(m)
  {
    var parts := DecomposeAffineQuaternion(sqrt, m);
    var q, s := parts.rotation, parts.scale;
    var a, b, c := Axis(Rotation(q), 0), Axis(Rotation(q), 1), Axis(Rotation(q), 2);
    MadeAxes(q, parts.position, s);
    Normalised(sqrt, Axis(m, 0));
    Normalised(sqrt, Axis(m, 1));
    Normalised(sqrt, Axis(m, 2));
    RebuiltAxis(s.x, Axis(m, 0), a);
    RebuiltAxis(s.y, Axis(m, 1), b);
    RebuiltAxis(s.z, Axis(m, 2), c);
    hide Dot3, Cross3, Scale3, Extract, Axis, Length, Rotation, MakeAffineQuaternion, Q.NormSquared, DetUpper;
    UnitAxes(q);
    ScaledDot(s.x, a, s.y, b);
    ScaledDot(s.y, b, s.z, c);
    ScaledDot(s.z, c, s.x, a);
    ScaledTriple(s.x, a, s.y, b, s.z, c);
    PositiveFactors(s.x, s.y, s.z, 1.0);
    DetUpperIsTriple(m);
    Cross3Cyclic(Axis(m, 0), Axis(m, 1), Axis(m, 2));
  }

  /**
   * Taking a matrix apart and putting it together again gives the same matrix exactly when it
   * is affine with orthogonal, right-handed axes.
   */
  lemma RebuiltIff(sqrt: real -> real, m: Mat4)
    requires IsSqrt(sqrt) && NonSingular(m)
    ensures var parts := DecomposeAffineQuaternion(sqrt, m);
      MakeAffineQuaternion(parts.rotation, parts.position, parts.scale) == m <==> IsAffine(m) && RightHandedAxes(m)
  {
    var parts := DecomposeAffineQuaternion(sqrt, m);
    MadeIsAffine(parts.rotation, parts.position, parts.scale);
    hide DecomposeAffineQuaternion, MakeAffineQuaternion, IsAffine, RightHandedAxes, NonSingular;
    if IsAffine(m) && RightHandedAxes(m) {
      Rebuild(sqrt, m);
    }
    if MakeAffineQuaternion(parts.rotation, parts.position, parts.scale) == m {
      OnlyRightHanded(sqrt, m);
    }
  }
}
