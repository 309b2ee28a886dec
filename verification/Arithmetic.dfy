/** Products of reals under a name, with the few facts about them that the proofs call on. */
module Arithmetic {

  /** A product with a name, so that proofs about sums can treat it as an atom. */
  function Mul(x: real, y: real): real {
    x * y
  }

  function Sq(x: real): real {
    Mul(x, x)
  }

  function Average(total: real, count: nat): real
    requires count > 0
  {
    total / count as real
  }

  lemma MeanTimesCount(n: real, sum: real)
    requires n > 0.0
    ensures Mul(n, sum / n) == sum
  {
  }

  lemma DivideThrough(n: real, v: real, squares: real, mean: real, sum: real)
    requires n > 0.0 && Mul(n, mean) == sum && Mul(n, v) == squares - Mul(mean, sum)
    ensures v == squares / n - Sq(mean)
  {
    assert Mul(n, Sq(mean)) == Mul(mean, sum);
    assert Mul(n, v + Sq(mean)) == squares;
  }

  lemma SameSignProduct(x: real, y: real)
    requires (x > 0.0 && y > 0.0) || (x < 0.0 && y < 0.0)
    ensures Mul(x, y) > 0.0
  {
  }

  lemma SqNonNegative(x: real)
    ensures Sq(x) >= 0.0
    ensures Sq(x) == 0.0 <==> x == 0.0
  {
    if x != 0.0 {
      SameSignProduct(x, x);
    }
  }

  lemma QuotientSign(sum: real, n: real)
    requires n > 0.0 && sum >= 0.0
    ensures sum / n >= 0.0
    ensures sum / n == 0.0 <==> sum == 0.0
  {
    MeanTimesCount(n, sum);
  }

  lemma QuotientOfMultiple(n: real, c: real)
    requires n > 0.0
    ensures Mul(n, c) / n == c
  {
  }

  lemma AddOne(m: nat, n: nat, c: real)
    requires n == m + 1
    ensures Mul(n as real, c) == Mul(m as real, c) + c
  {
  }

  lemma SqWithin(x: real, r: real)
    requires -r <= x <= r
    ensures Sq(x) <= Sq(r)
  {
    assert (r - x) * (r + x) == Sq(r) - Sq(x);
  }

  lemma SqHalf(x: real)
    ensures Sq(x / 2.0) == Sq(x) / 4.0
  {
  }

  lemma CentreShift(n: real, mean: real, mid: real)
    ensures Mul(n, Sq(mid - mean)) == Mul(n, Sq(mid)) - 2.0 * Mul(mid, Mul(n, mean)) + Mul(mean, Mul(n, mean))
  {
  }

  lemma MulZero(n: real)
    ensures Mul(n, 0.0) == 0.0
  {
  }

  lemma ZeroTimes(x: real)
    ensures Mul(0.0, x) == 0.0
  {
  }

  lemma ScaledOrder(n: real, x: real, y: real)
    requires n > 0.0
    ensures x <= y <==> Mul(n, x) <= Mul(n, y)
  {
    hide Mul;
    MulDifference(n, y, x);
    MulDifference(n, x, y);
    if x < y {
      SameSignProduct(n, y - x);
    } else if y < x {
      SameSignProduct(n, x - y);
    }
  }

  lemma MulMonotone(d: real, x: real, y: real)
    requires d >= 0.0 && x <= y
    ensures Mul(d, x) <= Mul(d, y)
  {
    if d > 0.0 {
      ScaledOrder(d, x, y);
    }
  }

  lemma MulDifference(n: real, x: real, y: real)
    ensures Mul(n, x - y) == Mul(n, x) - Mul(n, y)
  {
  }

  lemma SquareGap(x: real, y: real, d: real)
    ensures Sq(x - d) + Sq(y + d) - Sq(x) - Sq(y) == 2.0 * Mul(d, y + d - x)
  {
  }
}
