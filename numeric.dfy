/** Numeric conversions of the renderer. The source works in single-precision
    floats; this model works in exact reals, and writes out the one
    conversion that matters: the C++ cast `(int)f`, which truncates toward
    zero rather than rounding down. */
module Numeric {

  /** `(int)r` in C++: drop the fractional part, toward zero. */
  function Trunc(r: real): (n: int)
    ensures 0.0 <= r ==> 0 <= n && n as real <= r < n as real + 1.0
    ensures r < 0.0 ==> n <= 0 && n as real - 1.0 < r <= n as real
  {
    if r >= 0.0 then r.Floor else -((-r).Floor)
  }

  /** Truncation keeps order: a larger real never truncates to a smaller int. */
  lemma TruncMonotone(r1: real, r2: real)
    requires r1 <= r2
    ensures Trunc(r1) <= Trunc(r2)
  {
  }

  /** Truncation is not flooring: every value in (-1, 1) truncates to 0,
      so the cell index 0 covers two map units around the origin. */
  lemma TruncNearZero(r: real)
    requires -1.0 < r < 1.0
    ensures Trunc(r) == 0
  {
  }

  /** Dividing a non-negative quantity by a larger positive real gives a
      smaller (or equal) quotient. */
  lemma DivAntitone(a: real, d1: real, d2: real)
    requires 0.0 <= a && 0.0 < d1 <= d2
    ensures a / d2 <= a / d1
  {
    var q1, q2 := a / d1, a / d2;
    assert q1 * d1 == a && q2 * d2 == a;
    assert 0.0 <= q1;
    assert q1 * d2 >= q1 * d1;
    assert (q1 - q2) * d2 >= 0.0;
  }

  /** A positive quantity divided by a positive real stays positive. */
  lemma PositiveQuotient(a: real, d: real)
    requires 0.0 < a && 0.0 < d
    ensures 0.0 < a / d
  {
    var q := a / d;
    assert q * d == a;
  }

  /** Multiplying by a positive real keeps strict order, both ways. */
  lemma ScaleStrict(a: real, b: real, c: real)
    requires 0.0 < c
    ensures a < b <==> a * c < b * c
  {
    assert b * c - a * c == (b - a) * c;
  }

  /** Between positive reals, strict order is the strict order of squares. */
  lemma SquareStrict(a: real, b: real)
    requires 0.0 < a && 0.0 < b
    ensures a < b <==> a * a < b * b
  {
    assert b * b - a * a == (b - a) * (b + a);
    ScaleStrict(a, b, b + a);
    ScaleStrict(0.0, b - a, b + a);
  }
}
