/** Small facts of real arithmetic, kept apart so that each proof sees only what it needs. */
module RealFacts {

  lemma PositiveProduct(x: real, y: real)
    requires 0.0 < x && 0.0 < y
    ensures 0.0 < x * y
  {}

  lemma NonNegativeProduct(x: real, y: real)
    requires 0.0 <= x && 0.0 <= y
    ensures 0.0 <= x * y
  {}

  lemma Square(x: real)
    ensures 0.0 <= x * x
    ensures x != 0.0 ==> 0.0 < x * x
  {
    if x < 0.0 { PositiveProduct(-x, -x); } else if x > 0.0 { PositiveProduct(x, x); }
  }

  lemma SumOfSquares(u: real, v: real)
    ensures 0.0 <= u * u + v * v
  {
    Square(u);
    Square(v);
  }

  lemma RootOfPositive(s: real, d: real)
    requires 0.0 <= s && s * s == d && 0.0 < d
    ensures 0.0 < s
  {
    if s == 0.0 {
      assert false;
    }
  }

  /** For non-negative s and positive t, comparing s with t is comparing their squares. */
  lemma SquareMonotone(s: real, t: real)
    requires 0.0 <= s && 0.0 < t
    ensures s < t <==> s * s < t * t
  {
    if s < t {
      NonNegativeProduct(s, t - s);
      PositiveProduct(t, t - s);
      assert t * t - s * s == s * (t - s) + t * (t - s);
    } else {
      NonNegativeProduct(s, s - t);
      NonNegativeProduct(t, s - t);
      assert s * s - t * t == s * (s - t) + t * (s - t);
    }
  }

  /** From q <= a / b < q + 1 and b > 0: b * q <= a < b * q + b. */
  lemma ScaleBounds(a: real, b: real, q: real)
    requires 0.0 < b && q <= a / b < q + 1.0
    ensures b * q <= a < b * q + b
  {
    var t := a / b;
    assert b * t == a;
    assert a - b * q == b * (t - q);
    var u := q + 1.0 - t;
    PositiveProduct(b, u);
    assert b * q + b - a == b * u;
  }

  /** A quotient m / t of positive t lies between lo and hi when m lies between lo * t and hi * t. */
  lemma QuotientBounds(q: real, t: real, m: real, lo: real, hi: real)
    requires 0.0 < t && q * t == m && lo * t <= m <= hi * t
    ensures lo <= q <= hi
  {
    if q < lo {
      PositiveProduct(lo - q, t);
    }
    if hi < q {
      PositiveProduct(q - hi, t);
    }
  }

  /** The product of two numbers in [0, 1] is in [0, 1]. */
  lemma UnitProduct(x: real, y: real)
    requires 0.0 <= x <= 1.0 && 0.0 <= y <= 1.0
    ensures 0.0 <= x * y <= 1.0
  {
    NonNegativeProduct(x, y);
    NonNegativeProduct(1.0 - x, y);
    assert y - x * y == (1.0 - x) * y;
  }
}
