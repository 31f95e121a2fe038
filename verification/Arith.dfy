// Products and quotients of reals, one small fact at a time.
module Arith {
  lemma Distribute(a: real, p: real, q: real)
    ensures a * (p + q) == a * p + a * q
  {
  }

  lemma Associate(a: real, b: real, c: real)
    ensures a * (b * c) == b * (a * c)
    ensures a * (b * c) == (a * b) * c
  {
  }

  lemma PositiveProduct(x: real, y: real)
    requires x > 0.0 && y > 0.0
    ensures x * y > 0.0
  {
  }

  lemma NonNegativeProduct(x: real, y: real)
    requires x >= 0.0 && y >= 0.0
    ensures x * y >= 0.0
  {
  }

  lemma NegateBoth(x: real, y: real)
    ensures (-x) * (-y) == x * y
  {
  }

  lemma SameSignProduct(x: real, y: real)
    requires (x >= 0.0 && y >= 0.0) || (x <= 0.0 && y <= 0.0)
    ensures x * y >= 0.0
    ensures x != 0.0 && y != 0.0 ==> x * y > 0.0
  {
    NegateBoth(x, y);
    if x > 0.0 && y > 0.0 {
      PositiveProduct(x, y);
    } else if x < 0.0 && y < 0.0 {
      PositiveProduct(-x, -y);
    }
  }

  lemma ScaleMonotone(c: real, x: real, y: real)
    requires c >= 0.0 && x <= y
    ensures c * x <= c * y
  {
    NonNegativeProduct(c, y - x);
    Distribute(c, x, y - x);
  }

  lemma QuotientTimes(x: real, k: real)
    requires k != 0.0
    ensures x / k * k == x
  {
  }

  lemma QuotientBelow(a: real, k: real, x: real)
    requires k > 0.0 && a <= k * x
    ensures a / k <= x
  {
  }

  lemma QuotientAbove(a: real, k: real, x: real)
    requires k > 0.0 && a >= k * x
    ensures a / k >= x
  {
  }

  lemma ProductSigns(x: real, k: real)
    requires k > 0.0
    ensures x > 0.0 <==> x * k > 0.0
    ensures x >= 0.0 <==> x * k >= 0.0
    ensures x == 0.0 <==> x * k == 0.0
  {
  }

  lemma SquareMonotone(x: real, y: real)
    requires 0.0 <= x <= y
    ensures x * x <= y * y
  {
    ScaleMonotone(x, x, y);
    ScaleMonotone(y, x, y);
  }

  lemma PositiveProductIs(x: real, y: real, p: real)
    requires x > 0.0 && y > 0.0 && p == x * y
    ensures p > 0.0
  {
  }

  lemma NonZeroSquare(x: real, p: real)
    requires x != 0.0 && p == x * x
    ensures p > 0.0
  {
    if x > 0.0 {
      PositiveProductIs(x, x, p);
    } else {
      PositiveProductIs(-x, -x, p);
    }
  }

  lemma SquareNonNegative(x: real, p: real)
    requires p == x * x
    ensures p >= 0.0
  {
    if x != 0.0 {
      NonZeroSquare(x, p);
    }
  }
}
