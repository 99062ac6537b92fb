/** JavaScript number helpers on exact reals.

    Numbers are modelled as Dafny `real`; IEEE-754 rounding is not modelled.
    `Math.floor` is the real floor and `Math.round` is floor(x + 1/2), which is
    how JavaScript breaks ties (towards positive infinity). */
module JsMath {

  /** `Math.floor` */
  function Floor(x: real): (r: int)
    ensures r as real <= x < r as real + 1.0
  {
    x.Floor
  }

  /** `Math.round`: the nearest integer, halves rounded up. */
  function Round(x: real): (r: int)
    ensures x - 0.5 < r as real <= x + 0.5
  {
    Floor(x + 0.5)
  }

  /** `Math.min` on two integers */
  function MinInt(a: int, b: int): (r: int)
    ensures r <= a && r <= b
    ensures r == a || r == b
  {
    if a <= b then a else b
  }

  /** `Math.max` on two integers */
  function MaxInt(a: int, b: int): (r: int)
    ensures a <= r && b <= r
    ensures r == a || r == b
  {
    if a >= b then a else b
  }

  /** `Math.min` on two numbers */
  function MinReal(a: real, b: real): (r: real)
    ensures r <= a && r <= b
    ensures r == a || r == b
  {
    if a <= b then a else b
  }

  /** `Math.abs` on an integer */
  function Abs(a: int): (r: nat)
    ensures r == a || r == -a
  {
    if a < 0 then -a else a
  }

  /** Floor is monotone. */
  lemma FloorMonotone(x: real, y: real)
    requires x <= y
    ensures Floor(x) <= Floor(y)
  {
    assert Floor(x) as real <= y < Floor(y) as real + 1.0;
  }

  /** Round is monotone, so it never reverses the order of two numbers. */
  lemma RoundMonotone(x: real, y: real)
    requires x <= y
    ensures Round(x) <= Round(y)
  {
    FloorMonotone(x + 0.5, y + 0.5);
  }

  /** Rounding an integral number gives that integer back. */
  lemma RoundOfInt(n: int)
    ensures Round(n as real) == n
  {
  }

  /** Rounding keeps a number that lies between two integers between them. */
  lemma RoundBetween(x: real, lo: int, hi: int)
    requires lo as real <= x <= hi as real
    ensures lo <= Round(x) <= hi
  {
    RoundMonotone(lo as real, x);
    RoundMonotone(x, hi as real);
    RoundOfInt(lo);
    RoundOfInt(hi);
  }

  /** Dividing by a positive number keeps the order of two numbers. */
  lemma DivMonotone(a: real, b: real, d: real)
    requires a <= b && d > 0.0
    ensures a / d <= b / d
  {
    assert b / d - a / d == (b - a) / d;
  }

  /** Dividing by a positive number keeps a strict order. */
  lemma DivStrictMonotone(a: real, b: real, d: real)
    requires a < b && d > 0.0
    ensures a / d < b / d
  {
    assert b / d - a / d == (b - a) / d;
  }

  /** A fraction whose numerator lies between 0 and its positive denominator
      lies in [0, 1]. */
  lemma DivInUnitRange(a: real, d: real)
    requires 0.0 <= a <= d && d > 0.0
    ensures 0.0 <= a / d <= 1.0
  {
    DivMonotone(0.0, a, d);
    DivMonotone(a, d, d);
  }

  /** Scaling a non-negative number by a factor in [0, 1] keeps it between 0
      and itself. */
  lemma MulUnitBelow(x: real, p: real)
    requires 0.0 <= x <= 1.0 && 0.0 <= p
    ensures 0.0 <= x * p <= p
  {
    assert p - x * p == (1.0 - x) * p;
  }

  lemma MulNonNegative(a: real, b: real)
    requires 0.0 <= a && 0.0 <= b
    ensures 0.0 <= a * b
  {
  }

  lemma MulAtLeastOne(a: real, b: real)
    requires 1.0 <= a && 0.0 <= b
    ensures b <= a * b
  {
    MulNonNegative(a - 1.0, b);
    assert a * b - b == (a - 1.0) * b;
  }

  lemma MulNegativePositive(a: real, b: real)
    requires a < 0.0 && 0.0 < b
    ensures a * b < 0.0
  {
  }
}
