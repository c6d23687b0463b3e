/**
  Python's numeric built-ins that the model needs, over the reals:
  `int(x)` truncates toward zero and `a % b` (for b > 0) takes the floor.
 */
module PyNumbers {
  import opened RealFacts

  /** Python's `int(x)` on a float: truncation toward zero. */
  function Trunc(x: real): (r: int)
    ensures 0.0 <= x ==> r as real <= x < r as real + 1.0
    ensures x < 0.0 ==> r as real - 1.0 < x <= r as real
  {
    if 0.0 <= x then x.Floor else -((-x).Floor)
  }

  /** Python's `a % b` on floats for a positive modulus: the result has the sign of b. */
  function PyMod(a: real, b: real): (r: real)
    requires 0.0 < b
    ensures 0.0 <= r < b
    ensures IsInteger((a - r) / b)
  {
    PyModFacts(a, b);
    a - b * ((a / b).Floor as real)
  }

  /** a and b differ by a whole multiple of m. */
  ghost predicate Congruent(a: real, b: real, m: real)
    requires m != 0.0
  {
    IsInteger((a - b) / m)
  }

  /** x is a whole number. */
  ghost predicate IsInteger(x: real) {
    x.Floor as real == x
  }

  lemma PyModFacts(a: real, b: real)
    requires 0.0 < b
    ensures var bq := b * ((a / b).Floor as real);
      bq <= a < bq + b && IsInteger((a - (a - bq)) / b)
  {
    var q := (a / b).Floor as real;
    ScaleBounds(a, b, q);
    var bq := b * q;
    assert a - (a - bq) == bq;
    assert bq / b == q;
  }

  /** A value already in [0, b) is its own remainder. */
  lemma {:induction false} PyModOfReduced(a: real, b: real)
    requires 0.0 < b && 0.0 <= a < b
    ensures PyMod(a, b) == a
  {
    var t := a / b;
    assert t * b == a;
    assert 0.0 <= t;
    if 1.0 <= t {
      assert t * b - b == (t - 1.0) * b;
      NonNegativeProduct(t - 1.0, b);
      assert false;
    }
    assert 0.0 <= t < 1.0;
  }

  /** Taking the remainder twice is the same as taking it once. */
  lemma PyModIdempotent(a: real, b: real)
    requires 0.0 < b
    ensures PyMod(PyMod(a, b), b) == PyMod(a, b)
  {
    PyModOfReduced(PyMod(a, b), b);
  }
}
