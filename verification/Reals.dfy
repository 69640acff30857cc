/** Products and quotients of real numbers, as the proofs about rates and means use them. */
module Reals {
  function Abs(x: real): real { if x < 0.0 then -x else x }

  function Sq(x: real): real { x * x }

  lemma PositiveTimes(x: real, y: real)
    requires x > 0.0 && y > 0.0
    ensures x * y > 0.0
  {
  }

  lemma NonNegativeTimes(x: real, y: real)
    requires x >= 0.0 && y >= 0.0
    ensures x * y >= 0.0
  {
  }

  lemma PositiveProduct(x: real, y: real, product: real)
    requires x > 0.0 && y > 0.0 && product == x * y
    ensures product > 0.0
  {
  }

  lemma NonNegativeProduct(x: real, y: real, product: real)
    requires x >= 0.0 && y >= 0.0 && product == x * y
    ensures product >= 0.0
  {
  }

  lemma QuotientTimes(x: real, d: real)
    requires d > 0.0
    ensures x / d * d == x
  {
  }

  lemma Quotient(x: real, d: real, q: real)
    requires d > 0.0 && q * d == x
    ensures x / d == q
  {
  }

  lemma SameProduct(x: real, y: real, d: real)
    requires d > 0.0 && x * d == y * d
    ensures x == y
  {
    if x < y {
      PositiveTimes(y - x, d);
    } else if x > y {
      PositiveTimes(x - y, d);
    }
  }

  lemma LessProduct(x: real, y: real, d: real)
    requires d > 0.0 && x * d <= y * d
    ensures x <= y
  {
    if x > y { PositiveTimes(x - y, d); }
  }

  lemma TimesMonotone(x: real, y: real, n: real)
    requires n > 0.0
    ensures x < y <==> x * n < y * n
  {
    if x < y {
      PositiveTimes(y - x, n);
    } else {
      NonNegativeTimes(x - y, n);
    }
  }
}
