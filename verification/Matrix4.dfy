/**
 * 4x4 matrices over exact reals, by value: product, cofactors, and the general inverse. Vectors
 * are rows and multiply from the left, as throughout the original.
 */
module Matrix4 {

  datatype Vec4 = Vec4(x: real, y: real, z: real, w: real)

  datatype Mat4 = Mat4(
    e00: real, e01: real, e02: real, e03: real,
    e10: real, e11: real, e12: real, e13: real,
    e20: real, e21: real, e22: real, e23: real,
    e30: real, e31: real, e32: real, e33: real)

  const IDENTITY := Mat4(
    1.0, 0.0, 0.0, 0.0,
    0.0, 1.0, 0.0, 0.0,
    0.0, 0.0, 1.0, 0.0,
    0.0, 0.0, 0.0, 1.0)

  type Index = i: int | 0 <= i < 4

  function Nth(v: Vec4, j: Index): real {
    match j case 0 => v.x case 1 => v.y case 2 => v.z case 3 => v.w
  }

  function Row(m: Mat4, i: Index): Vec4 {
    match i
    case 0 => Vec4(m.e00, m.e01, m.e02, m.e03)
    case 1 => Vec4(m.e10, m.e11, m.e12, m.e13)
    case 2 => Vec4(m.e20, m.e21, m.e22, m.e23)
    case 3 => Vec4(m.e30, m.e31, m.e32, m.e33)
  }

  function Transpose(m: Mat4): Mat4 {
    Mat4(
      m.e00, m.e10, m.e20, m.e30,
      m.e01, m.e11, m.e21, m.e31,
      m.e02, m.e12, m.e22, m.e32,
      m.e03, m.e13, m.e23, m.e33)
  }

  function Col(m: Mat4, j: Index): Vec4 {
    Row(Transpose(m), j)
  }

  function At(m: Mat4, i: Index, j: Index): real {
    Nth(Row(m, i), j)
  }

  function Dot(u: Vec4, v: Vec4): real {
    u.x*v.x + u.y*v.y + u.z*v.z + u.w*v.w
  }

  /** The product, entry by entry: row times column. */
  function Mul(a: Mat4, b: Mat4): Mat4 {
    Mat4(
      Dot(Row(a, 0), Col(b, 0)), Dot(Row(a, 0), Col(b, 1)), Dot(Row(a, 0), Col(b, 2)), Dot(Row(a, 0), Col(b, 3)),
      Dot(Row(a, 1), Col(b, 0)), Dot(Row(a, 1), Col(b, 1)), Dot(Row(a, 1), Col(b, 2)), Dot(Row(a, 1), Col(b, 3)),
      Dot(Row(a, 2), Col(b, 0)), Dot(Row(a, 2), Col(b, 1)), Dot(Row(a, 2), Col(b, 2)), Dot(Row(a, 2), Col(b, 3)),
      Dot(Row(a, 3), Col(b, 0)), Dot(Row(a, 3), Col(b, 1)), Dot(Row(a, 3), Col(b, 2)), Dot(Row(a, 3), Col(b, 3)))
  }

  /** The row vector v*M. */
  function Transform(v: Vec4, m: Mat4): Vec4 {
    Vec4(Dot(v, Col(m, 0)), Dot(v, Col(m, 1)), Dot(v, Col(m, 2)), Dot(v, Col(m, 3)))
  }

  function Apply(m: Mat4, v: Vec4): Vec4 {
    Vec4(Dot(Row(m, 0), v), Dot(Row(m, 1), v), Dot(Row(m, 2), v), Dot(Row(m, 3), v))
  }

  lemma SameEntries(a: Mat4, b: Mat4)
    requires forall i: Index, j: Index :: At(a, i, j) == At(b, i, j)
    ensures a == b
  {
    assert At(a, 0, 0) == At(b, 0, 0) && At(a, 0, 1) == At(b, 0, 1) && At(a, 0, 2) == At(b, 0, 2)
      && At(a, 0, 3) == At(b, 0, 3);
    assert At(a, 1, 0) == At(b, 1, 0) && At(a, 1, 1) == At(b, 1, 1) && At(a, 1, 2) == At(b, 1, 2)
      && At(a, 1, 3) == At(b, 1, 3);
    assert At(a, 2, 0) == At(b, 2, 0) && At(a, 2, 1) == At(b, 2, 1) && At(a, 2, 2) == At(b, 2, 2)
      && At(a, 2, 3) == At(b, 2, 3);
    assert At(a, 3, 0) == At(b, 3, 0) && At(a, 3, 1) == At(b, 3, 1) && At(a, 3, 2) == At(b, 3, 2)
      && At(a, 3, 3) == At(b, 3, 3);
  }

  lemma MulRow(a: Mat4, b: Mat4, i: Index)
    ensures Row(Mul(a, b), i) == Transform(Row(a, i), b)
  {
    match i case 0 => case 1 => case 2 => case 3 =>
  }

  lemma MulCol(a: Mat4, b: Mat4, j: Index)
    ensures Col(Mul(a, b), j) == Apply(a, Col(b, j))
  {
    match j case 0 => case 1 => case 2 => case 3 =>
  }

  lemma MulAt(a: Mat4, b: Mat4, i: Index, j: Index)
    ensures At(Mul(a, b), i, j) == Dot(Row(a, i), Col(b, j))
  {
    MulRow(a, b, i);
    match j case 0 => case 1 => case 2 => case 3 =>
  }

  lemma Bilinear(u: Vec4, a: Vec4, b: Vec4, c: Vec4, d: Vec4, v: Vec4, t: Vec4, s: Vec4)
    requires t.x == u.x*a.x + u.y*b.x + u.z*c.x + u.w*d.x
    requires t.y == u.x*a.y + u.y*b.y + u.z*c.y + u.w*d.y
    requires t.z == u.x*a.z + u.y*b.z + u.z*c.z + u.w*d.z
    requires t.w == u.x*a.w + u.y*b.w + u.z*c.w + u.w*d.w
    requires s.x == a.x*v.x + a.y*v.y + a.z*v.z + a.w*v.w
    requires s.y == b.x*v.x + b.y*v.y + b.z*v.z + b.w*v.w
    requires s.z == c.x*v.x + c.y*v.y + c.z*v.z + c.w*v.w
    requires s.w == d.x*v.x + d.y*v.y + d.z*v.z + d.w*v.w
    ensures Dot(t, v) == Dot(u, s)
  {
    hide BilinearSum, Dot;
    BilinearLeft(u, a, b, c, d, v, t);
    BilinearRight(u, a, b, c, d, v, s);
  }

  function BilinearSum(u: Vec4, a: Vec4, b: Vec4, c: Vec4, d: Vec4, v: Vec4): real {
    u.x*a.x*v.x + u.x*a.y*v.y + u.x*a.z*v.z + u.x*a.w*v.w + u.y*b.x*v.x + u.y*b.y*v.y + u.y*b.z*v.z + u.y*b.w*v.w
    + u.z*c.x*v.x + u.z*c.y*v.y + u.z*c.z*v.z + u.z*c.w*v.w + u.w*d.x*v.x + u.w*d.y*v.y + u.w*d.z*v.z + u.w*d.w*v.w
  }

  lemma BilinearLeft(u: Vec4, a: Vec4, b: Vec4, c: Vec4, d: Vec4, v: Vec4, t: Vec4)
    requires t.x == u.x*a.x + u.y*b.x + u.z*c.x + u.w*d.x
    requires t.y == u.x*a.y + u.y*b.y + u.z*c.y + u.w*d.y
    requires t.z == u.x*a.z + u.y*b.z + u.z*c.z + u.w*d.z
    requires t.w == u.x*a.w + u.y*b.w + u.z*c.w + u.w*d.w
    ensures Dot(t, v) == BilinearSum(u, a, b, c, d, v)
  {
    assert t.x*v.x == (u.x*a.x + u.y*b.x + u.z*c.x + u.w*d.x)*v.x;
    assert t.y*v.y == (u.x*a.y + u.y*b.y + u.z*c.y + u.w*d.y)*v.y;
    assert t.z*v.z == (u.x*a.z + u.y*b.z + u.z*c.z + u.w*d.z)*v.z;
    assert t.w*v.w == (u.x*a.w + u.y*b.w + u.z*c.w + u.w*d.w)*v.w;
  }

  lemma BilinearRight(u: Vec4, a: Vec4, b: Vec4, c: Vec4, d: Vec4, v: Vec4, s: Vec4)
    requires s.x == a.x*v.x + a.y*v.y + a.z*v.z + a.w*v.w
    requires s.y == b.x*v.x + b.y*v.y + b.z*v.z + b.w*v.w
    requires s.z == c.x*v.x + c.y*v.y + c.z*v.z + c.w*v.w
    requires s.w == d.x*v.x + d.y*v.y + d.z*v.z + d.w*v.w
    ensures Dot(u, s) == BilinearSum(u, a, b, c, d, v)
  {
    assert u.x*s.x == u.x*(a.x*v.x + a.y*v.y + a.z*v.z + a.w*v.w);
    assert u.y*s.y == u.y*(b.x*v.x + b.y*v.y + b.z*v.z + b.w*v.w);
    assert u.z*s.z == u.z*(c.x*v.x + c.y*v.y + c.z*v.z + c.w*v.w);
    assert u.w*s.w == u.w*(d.x*v.x + d.y*v.y + d.z*v.z + d.w*v.w);
  }

  lemma DotTransform(u: Vec4, m: Mat4, v: Vec4)
    ensures Dot(Transform(u, m), v) == Dot(u, Apply(m, v))
  {
    Bilinear(u, Row(m, 0), Row(m, 1), Row(m, 2), Row(m, 3), v, Transform(u, m), Apply(m, v));
  }

  lemma MulAssoc(a: Mat4, b: Mat4, c: Mat4)
    ensures Mul(Mul(a, b), c) == Mul(a, Mul(b, c))
  {
    forall i: Index, j: Index ensures At(Mul(Mul(a, b), c), i, j) == At(Mul(a, Mul(b, c)), i, j) {
      MulAt(Mul(a, b), c, i, j);
      MulAt(a, Mul(b, c), i, j);
      MulRow(a, b, i);
      MulCol(b, c, j);
      DotTransform(Row(a, i), b, Col(c, j));
    }
    SameEntries(Mul(Mul(a, b), c), Mul(a, Mul(b, c)));
  }

  lemma MulIdentity(m: Mat4)
    ensures Mul(m, IDENTITY) == m && Mul(IDENTITY, m) == m
  {
  }

  /** Transforming by a product is transforming twice, left factor first. */
  lemma TransformMul(v: Vec4, a: Mat4, b: Mat4)
    ensures Transform(v, Mul(a, b)) == Transform(Transform(v, a), b)
  {
    MulCol(a, b, 0);
    MulCol(a, b, 1);
    MulCol(a, b, 2);
    MulCol(a, b, 3);
    DotTransform(v, a, Col(b, 0));
    DotTransform(v, a, Col(b, 1));
    DotTransform(v, a, Col(b, 2));
    DotTransform(v, a, Col(b, 3));
  }

  // ---------------------------------------------------------------- cofactors

  function Det3(a: real, b: real, c: real, d: real, e: real, f: real, g: real, h: real, i: real): real {
    a*(e*i - f*h) + b*(f*g - d*i) + c*(d*h - e*g)
  }

  /** The r-th index that is left when k is dropped. */
  function Skip(k: Index, r: int): Index
    requires 0 <= r < 3
  {
    if r < k then r else r + 1
  }

  function Minor(m: Mat4, i: Index, j: Index): real {
    Det3(
      At(m, Skip(i, 0), Skip(j, 0)), At(m, Skip(i, 0), Skip(j, 1)), At(m, Skip(i, 0), Skip(j, 2)),
      At(m, Skip(i, 1), Skip(j, 0)), At(m, Skip(i, 1), Skip(j, 1)), At(m, Skip(i, 1), Skip(j, 2)),
      At(m, Skip(i, 2), Skip(j, 0)), At(m, Skip(i, 2), Skip(j, 1)), At(m, Skip(i, 2), Skip(j, 2)))
  }

  function Cofactor(m: Mat4, i: Index, j: Index): real {
    if (i + j) % 2 == 0 then Minor(m, i, j) else -Minor(m, i, j)
  }

  /** The selection loop of the original: it drops row i and column j and nothing else. */
  method ComputeCofactor(m: Mat4, i: Index, j: Index) returns (c: real)
    ensures c == Cofactor(m, i, j)
  {
    var rows, cols := new Index[3], new Index[3];
    var row, col := 0, 0;
    var rowCol := 0;
    while rowCol < 4
      invariant 0 <= rowCol <= 4
      invariant row == (if rowCol > i then rowCol - 1 else rowCol) && col == (if rowCol > j then rowCol - 1 else rowCol)
      invariant forall r :: 0 <= r < row && r < 3 ==> rows[r] == Skip(i, r)
      invariant forall r :: 0 <= r < col && r < 3 ==> cols[r] == Skip(j, r)
    {
      if rowCol != i {
        rows[row] := rowCol;
        row := row + 1;
      }
      if rowCol != j {
        cols[col] := rowCol;
        col := col + 1;
      }
      rowCol := rowCol + 1;
    }
    hide Det3;
    var det := Det3(
      At(m, rows[0], cols[0]), At(m, rows[0], cols[1]), At(m, rows[0], cols[2]),
      At(m, rows[1], cols[0]), At(m, rows[1], cols[1]), At(m, rows[1], cols[2]),
      At(m, rows[2], cols[0]), At(m, rows[2], cols[1]), At(m, rows[2], cols[2]));
    c := if (i + j) % 2 == 0 then det else -det;
  }

  function CofactorRow(m: Mat4, i: Index): Vec4 {
    Vec4(Cofactor(m, i, 0), Cofactor(m, i, 1), Cofactor(m, i, 2), Cofactor(m, i, 3))
  }

  function Neg(v: Vec4): Vec4 {
    Vec4(-v.x, -v.y, -v.z, -v.w)
  }

  /** The vector of cofactors of a row standing above p, q and r. */
  function Cross(p: Vec4, q: Vec4, r: Vec4): Vec4 {
    Vec4(
      Det3(p.y, p.z, p.w, q.y, q.z, q.w, r.y, r.z, r.w),
      -Det3(p.x, p.z, p.w, q.x, q.z, q.w, r.x, r.z, r.w),
      Det3(p.x, p.y, p.w, q.x, q.y, q.w, r.x, r.y, r.w),
      -Det3(p.x, p.y, p.z, q.x, q.y, q.z, r.x, r.y, r.z))
  }

  lemma CrossOrthogonal(p: Vec4, q: Vec4, r: Vec4)
    ensures Dot(p, Cross(p, q, r)) == 0.0
    ensures Dot(q, Cross(p, q, r)) == 0.0
    ensures Dot(r, Cross(p, q, r)) == 0.0
  {
    TripleProduct(p, p, q, r);
    TripleProduct(q, p, q, r);
    TripleProduct(r, p, q, r);
  }

  lemma TripleProduct(o: Vec4, p: Vec4, q: Vec4, r: Vec4)
    ensures Dot(o, Cross(p, q, r))
      == o.x*(p.y*(q.z*r.w - q.w*r.z) + p.z*(q.w*r.y - q.y*r.w) + p.w*(q.y*r.z - q.z*r.y))
         - o.y*(p.x*(q.z*r.w - q.w*r.z) + p.z*(q.w*r.x - q.x*r.w) + p.w*(q.x*r.z - q.z*r.x))
         + o.z*(p.x*(q.y*r.w - q.w*r.y) + p.y*(q.w*r.x - q.x*r.w) + p.w*(q.x*r.y - q.y*r.x))
         - o.w*(p.x*(q.y*r.z - q.z*r.y) + p.y*(q.z*r.x - q.x*r.z) + p.z*(q.x*r.y - q.y*r.x))
  {
  }

  /** Exchanging two rows changes the sign of the determinant. */
  lemma CrossSwap(o: Vec4, p: Vec4, q: Vec4, r: Vec4)
    ensures Dot(p, Neg(Cross(o, q, r))) == Dot(o, Cross(p, q, r))
    ensures Dot(q, Cross(o, p, r)) == Dot(o, Cross(p, q, r))
    ensures Dot(r, Neg(Cross(o, p, q))) == Dot(o, Cross(p, q, r))
  {
    TripleProduct(o, p, q, r);
    TripleProduct(p, o, q, r);
    TripleProduct(q, o, p, r);
    TripleProduct(r, o, p, q);
  }

  lemma CofactorRowIsCross(m: Mat4)
    ensures CofactorRow(m, 0) == Cross(Row(m, 1), Row(m, 2), Row(m, 3))
    ensures CofactorRow(m, 1) == Neg(Cross(Row(m, 0), Row(m, 2), Row(m, 3)))
    ensures CofactorRow(m, 2) == Cross(Row(m, 0), Row(m, 1), Row(m, 3))
    ensures CofactorRow(m, 3) == Neg(Cross(Row(m, 0), Row(m, 1), Row(m, 2)))
  {
  }

  /** The determinant as the original computes it, along the first row. */
  function Det(m: Mat4): real {
    m.e00*Cofactor(m, 0, 0) + m.e01*Cofactor(m, 0, 1) + m.e02*Cofactor(m, 0, 2) + m.e03*Cofactor(m, 0, 3)
  }

  /**
   * A row times its own cofactors is the determinant; times another row's cofactors it is 0.
   */
  lemma RowExpansion(m: Mat4, r: Index, i: Index)
    ensures Dot(Row(m, r), CofactorRow(m, i)) == if r == i then Det(m) else 0.0
  {
    var r0, r1, r2, r3 := Row(m, 0), Row(m, 1), Row(m, 2), Row(m, 3);
    CofactorRowIsCross(m);
    assert Det(m) == Dot(r0, CofactorRow(m, 0));
    CrossSwap(r0, r1, r2, r3);
    match i
    case 0 => CrossOrthogonal(r1, r2, r3);
    case 1 => CrossOrthogonal(r0, r2, r3); DotNeg(Row(m, r), Cross(r0, r2, r3));
    case 2 => CrossOrthogonal(r0, r1, r3);
    case 3 => CrossOrthogonal(r0, r1, r2); DotNeg(Row(m, r), Cross(r0, r1, r2));
  }

  lemma DotNeg(u: Vec4, v: Vec4)
    ensures Dot(u, Neg(v)) == -Dot(u, v)
  {
  }

  lemma CofactorTranspose(m: Mat4, i: Index, j: Index)
    ensures Cofactor(Transpose(m), j, i) == Cofactor(m, i, j)
  {
    forall a: Index, b: Index ensures At(Transpose(m), b, a) == At(m, a, b) {
      TransposeAt(m, a, b);
    }
    Det3Transpose(
      At(m, Skip(i, 0), Skip(j, 0)), At(m, Skip(i, 0), Skip(j, 1)), At(m, Skip(i, 0), Skip(j, 2)),
      At(m, Skip(i, 1), Skip(j, 0)), At(m, Skip(i, 1), Skip(j, 1)), At(m, Skip(i, 1), Skip(j, 2)),
      At(m, Skip(i, 2), Skip(j, 0)), At(m, Skip(i, 2), Skip(j, 1)), At(m, Skip(i, 2), Skip(j, 2)));
  }

  lemma TransposeAt(m: Mat4, i: Index, j: Index)
    ensures At(Transpose(m), j, i) == At(m, i, j)
  {
    match i
    case 0 => match j { case 0 => case 1 => case 2 => case 3 => }
    case 1 => match j { case 0 => case 1 => case 2 => case 3 => }
    case 2 => match j { case 0 => case 1 => case 2 => case 3 => }
    case 3 => match j { case 0 => case 1 => case 2 => case 3 => }
  }

  lemma Det3Transpose(a: real, b: real, c: real, d: real, e: real, f: real, g: real, h: real, i: real)
    ensures Det3(a, d, g, b, e, h, c, f, i) == Det3(a, b, c, d, e, f, g, h, i)
  {
  }

  /**
   * Summing every entry times its cofactor counts the determinant once per row, and just as
   * well once per column, so a matrix and its transpose have the same determinant.
   */
  lemma DetTranspose(m: Mat4)
    ensures Det(Transpose(m)) == Det(m)
  {
    hide Minor;
    var t := Transpose(m);
    RowExpansion(m, 0, 0); RowExpansion(m, 1, 1); RowExpansion(m, 2, 2); RowExpansion(m, 3, 3);
    RowExpansion(t, 0, 0); RowExpansion(t, 1, 1); RowExpansion(t, 2, 2); RowExpansion(t, 3, 3);
    CofactorRowTranspose(m, 0);
    CofactorRowTranspose(m, 1);
    CofactorRowTranspose(m, 2);
    CofactorRowTranspose(m, 3);
  }

  function CofactorCol(m: Mat4, j: Index): Vec4 {
    Vec4(Nth(CofactorRow(m, 0), j), Nth(CofactorRow(m, 1), j), Nth(CofactorRow(m, 2), j), Nth(CofactorRow(m, 3), j))
  }

  lemma CofactorRowNth(m: Mat4, i: Index, j: Index)
    ensures Nth(CofactorRow(m, i), j) == Cofactor(m, i, j)
  {
    match j case 0 => case 1 => case 2 => case 3 =>
  }

  lemma CofactorRowTranspose(m: Mat4, j: Index)
    ensures CofactorRow(Transpose(m), j) == CofactorCol(m, j)
  {
    CofactorTranspose(m, 0, j);
    CofactorTranspose(m, 1, j);
    CofactorTranspose(m, 2, j);
    CofactorTranspose(m, 3, j);
    CofactorRowNth(m, 0, j);
    CofactorRowNth(m, 1, j);
    CofactorRowNth(m, 2, j);
    CofactorRowNth(m, 3, j);
  }

  lemma ColExpansion(m: Mat4, c: Index, j: Index)
    ensures Dot(Col(m, c), CofactorCol(m, j)) == if c == j then Det(m) else 0.0
  {
    RowExpansion(Transpose(m), c, j);
    CofactorRowTranspose(m, j);
    DetTranspose(m);
  }

  // ---------------------------------------------------------------- inverse

  function Scale(k: real, v: Vec4): Vec4 {
    Vec4(k*v.x, k*v.y, k*v.z, k*v.w)
  }

  lemma DotScale(u: Vec4, k: real, v: Vec4)
    ensures Dot(u, Scale(k, v)) == k * Dot(u, v) == Dot(Scale(k, v), u)
  {
    assert k * Dot(u, v) == k*(u.x*v.x + u.y*v.y + u.z*v.z + u.w*v.w);
  }

  /** The transposed cofactors, scaled. */
  function ScaledAdjugate(m: Mat4, k: real): Mat4 {
    FromColumns(Scale(k, CofactorRow(m, 0)), Scale(k, CofactorRow(m, 1)), Scale(k, CofactorRow(m, 2)),
      Scale(k, CofactorRow(m, 3)))
  }

  function Inverse(m: Mat4): Mat4
    requires Det(m) != 0.0
  {
    ScaledAdjugate(m, 1.0 / Det(m))
  }

  function FromColumns(a: Vec4, b: Vec4, c: Vec4, d: Vec4): Mat4 {
    Mat4(
      a.x, b.x, c.x, d.x,
      a.y, b.y, c.y, d.y,
      a.z, b.z, c.z, d.z,
      a.w, b.w, c.w, d.w)
  }

  lemma ColumnsRow(a: Vec4, b: Vec4, c: Vec4, d: Vec4, i: Index)
    ensures Row(FromColumns(a, b, c, d), i) == Vec4(Nth(a, i), Nth(b, i), Nth(c, i), Nth(d, i))
    ensures Col(FromColumns(a, b, c, d), i) == match i case 0 => a case 1 => b case 2 => c case 3 => d
  {
    match i case 0 => case 1 => case 2 => case 3 =>
  }

  lemma AdjugateLines(m: Mat4, k: real, i: Index)
    ensures Col(ScaledAdjugate(m, k), i) == Scale(k, CofactorRow(m, i))
    ensures Row(ScaledAdjugate(m, k), i) == Scale(k, CofactorCol(m, i))
  {
    hide Minor, Cofactor, CofactorRow, FromColumns, Row, Col, Nth;
    var r0, r1, r2, r3 := CofactorRow(m, 0), CofactorRow(m, 1), CofactorRow(m, 2), CofactorRow(m, 3);
    ColumnsRow(Scale(k, r0), Scale(k, r1), Scale(k, r2), Scale(k, r3), i);
    NthScale(k, r0, i);
    NthScale(k, r1, i);
    NthScale(k, r2, i);
    NthScale(k, r3, i);
    match i case 0 => case 1 => case 2 => case 3 =>
  }

  lemma CofactorColNth(m: Mat4, i: Index, j: Index)
    ensures Nth(CofactorCol(m, i), j) == Cofactor(m, j, i)
  {
    hide Minor, Cofactor;
    CofactorRowNth(m, j, i);
    match j case 0 => case 1 => case 2 => case 3 =>
  }

  lemma AdjugateAt(m: Mat4, k: real, i: Index, j: Index)
    ensures At(ScaledAdjugate(m, k), i, j) == k * Cofactor(m, j, i)
  {
    hide Minor, Cofactor, CofactorRow, CofactorCol, ScaledAdjugate, Scale, Row, Nth;
    AdjugateLines(m, k, i);
    NthScale(k, CofactorCol(m, i), j);
    CofactorColNth(m, i, j);
  }

  lemma NthScale(k: real, v: Vec4, i: Index)
    ensures Nth(Scale(k, v), i) == k * Nth(v, i)
  {
    match i case 0 => case 1 => case 2 => case 3 =>
  }

  lemma IdentityAt(i: Index, j: Index)
    ensures At(IDENTITY, i, j) == if i == j then 1.0 else 0.0
  {
    match i case 0 => case 1 => case 2 => case 3 =>
  }

  /** The general inverse is an inverse from both sides. */
  lemma InverseIsInverse(m: Mat4)
    requires Det(m) != 0.0
    ensures Mul(m, Inverse(m)) == IDENTITY
    ensures Mul(Inverse(m), m) == IDENTITY
  {
    hide Minor, Dot, Mul, ScaledAdjugate, Scale;
    var k := 1.0 / Det(m);
    forall i: Index, j: Index
      ensures At(Mul(m, Inverse(m)), i, j) == At(IDENTITY, i, j)
      ensures At(Mul(Inverse(m), m), i, j) == At(IDENTITY, i, j)
    {
      IdentityAt(i, j);
      MulAt(m, Inverse(m), i, j);
      AdjugateLines(m, k, j);
      DotScale(Row(m, i), k, CofactorRow(m, j));
      RowExpansion(m, i, j);
      MulAt(Inverse(m), m, i, j);
      AdjugateLines(m, k, i);
      DotScale(Col(m, j), k, CofactorCol(m, i));
      ColExpansion(m, j, i);
    }
    SameEntries(Mul(m, Inverse(m)), IDENTITY);
    SameEntries(Mul(Inverse(m), m), IDENTITY);
  }

  /** A left and a right inverse of the same matrix are equal. */
  lemma InverseUnique(m: Mat4, left: Mat4, right: Mat4)
    requires Mul(left, m) == IDENTITY && Mul(m, right) == IDENTITY
    ensures left == right
  {
    MulIdentity(left);
    MulIdentity(right);
    MulAssoc(left, m, right);
  }

  /** Any right inverse of an invertible matrix is the general inverse. */
  lemma RightInverseIsInverse(m: Mat4, right: Mat4)
    requires Det(m) != 0.0 && Mul(m, right) == IDENTITY
    ensures right == Inverse(m)
  {
    InverseIsInverse(m);
    InverseUnique(m, Inverse(m), right);
  }

  /** The double loop of the original over the transposed cofactors. */
  method ComputeInverse(m: Mat4) returns (out: Mat4)
    requires Det(m) != 0.0
    ensures out == Inverse(m)
    ensures Mul(m, out) == IDENTITY && Mul(out, m) == IDENTITY
  {
    hide Minor, ScaledAdjugate;
    var c0 := ComputeCofactor(m, 0, 0);
    var c1 := ComputeCofactor(m, 0, 1);
    var c2 := ComputeCofactor(m, 0, 2);
    var c3 := ComputeCofactor(m, 0, 3);
    var det := m.e00*c0 + m.e01*c1 + m.e02*c2 + m.e03*c3;
    var invDet := 1.0 / det;
    assert invDet == 1.0 / Det(m) by { assert det == Det(m); }
    ghost var goal := ScaledAdjugate(m, invDet);
    var e := new real[4, 4];
    var i := 0;
    while i < 4
      invariant 0 <= i <= 4
      invariant forall a: Index, b: Index :: a < i ==> e[a, b] == At(goal, a, b)
    {
      var j := 0;
      while j < 4
        invariant 0 <= j <= 4
        invariant forall a: Index, b: Index :: a < i || (a == i && b < j) ==> e[a, b] == At(goal, a, b)
      {
        var c := ComputeCofactor(m, j, i);
        AdjugateAt(m, invDet, i, j);
        e[i, j] := invDet * c;
        j := j + 1;
      }
      i := i + 1;
    }
    out := Mat4(
      e[0, 0], e[0, 1], e[0, 2], e[0, 3],
      e[1, 0], e[1, 1], e[1, 2], e[1, 3],
      e[2, 0], e[2, 1], e[2, 2], e[2, 3],
      e[3, 0], e[3, 1], e[3, 2], e[3, 3]);
    forall a: Index, b: Index ensures At(out, a, b) == At(goal, a, b) {
      assert At(out, a, b) == e[a, b];
    }
    SameEntries(out, goal);
    InverseIsInverse(m);
  }
}
