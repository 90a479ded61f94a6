/**
 * Facts about products of reals, stated over the named functions `Sq` and
 * `Mul` so that the rest of the model can use them by rewriting alone.
 */
module RealArith {

  function Sq(x: real): real { x * x }

  function Mul(a: real, b: real): real { a * b }

  lemma MulPos(a: real, b: real)
    requires a > 0.0 && b > 0.0
    ensures Mul(a, b) > 0.0
  {
  }

  lemma SqZero()
    ensures Sq(0.0) == 0.0
  {
  }

  lemma SqOne()
    ensures Sq(1.0) == 1.0
  {
  }

  lemma SqPos(x: real)
    requires x != 0.0
    ensures Sq(x) > 0.0
  {
    if x > 0.0 {
      calc { Sq(x); == x * x; > 0.0; }
    } else {
      calc { Sq(x); == (-x) * (-x); > 0.0; }
    }
  }

  lemma SqNonNeg(x: real)
    ensures Sq(x) >= 0.0
  {
    if x != 0.0 {
      SqPos(x);
    } else {
      SqZero();
    }
  }

  /** Squaring is strictly increasing on the non-negative reals. */
  lemma SqLess(d: real, k: real)
    requires 0.0 <= d < k
    ensures Sq(d) < Sq(k)
  {
    MulPos(k - d, k + d);
    calc {
      Sq(k) - Sq(d);
      == k * k - d * d;
      == (k - d) * (k + d);
      == Mul(k - d, k + d);
      > 0.0;
    }
  }

  /**
   * For a non-negative length `d` and any bound `k`: `d <= k` exactly when
   * `k` is non-negative and `Sq(d) <= Sq(k)`, and likewise for `<`.
   */
  lemma SquareCompare(d: real, k: real)
    requires d >= 0.0
    ensures d <= k <==> (k >= 0.0 && Sq(d) <= Sq(k))
    ensures d < k <==> (k >= 0.0 && Sq(d) < Sq(k))
  {
    if d < k {
      SqLess(d, k);
    } else if d > k && k >= 0.0 {
      SqLess(k, d);
    }
  }
}
