/**
 * Exact arithmetic over the reals. The square root of the original is a parameter of every
 * function that uses one; all that is known of it is its defining property.
 */
module RealMath {

  ghost predicate IsSqrt(sqrt: real -> real) {
    forall a: real :: a >= 0.0 ==> sqrt(a) >= 0.0 && sqrt(a) * sqrt(a) == a
  }

  function Abs(x: real): real {
    if x < 0.0 then -x else x
  }

  lemma SameSquares(a: real, b: real)
    requires a >= 0.0 && b >= 0.0 && a * a == b * b
    ensures a == b
  {
    assert (a - b) * (a + b) == a * a - b * b;
    if a + b != 0.0 {
      assert a - b == ((a - b) * (a + b)) / (a + b);
    }
  }

  lemma SqrtOfSquare(sqrt: real -> real, s: real, x: real)
    requires IsSqrt(sqrt) && s == x * x
    ensures sqrt(s) == Abs(x)
  {
    assert Abs(x) * Abs(x) == s;
    assert s >= 0.0;
    SameSquares(sqrt(s), Abs(x));
  }

  lemma MulPositive(a: real, b: real)
    requires a > 0.0 && b > 0.0
    ensures a * b > 0.0
  {
  }

  lemma RootAtLeastOne(sqrt: real -> real, a: real)
    requires IsSqrt(sqrt) && a >= 1.0
    ensures sqrt(a) >= 1.0
  {
    var r := sqrt(a);
    if 0.0 < r < 1.0 {
      MulPositive(r, 1.0 - r);
    }
  }

  function Square(a: real): real {
    a * a
  }

  lemma ProductPositive(a: real, b: real, p: real)
    requires a > 0.0 && b > 0.0 && p == a * b
    ensures p > 0.0
  {
  }

  lemma SquareNonNegative(a: real)
    ensures Square(a) >= 0.0 && (a != 0.0 ==> Square(a) > 0.0) && (a == 0.0 ==> Square(a) == 0.0)
  {
    if a > 0.0 {
      ProductPositive(a, a, Square(a));
    } else if a < 0.0 {
      ProductPositive(-a, -a, Square(a));
    } else {
      assert Square(0.0) == 0.0;
    }
  }
}
