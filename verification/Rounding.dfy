/** `f64::round` on exact reals: to the nearest integer, halves away from zero. */
module Rounding {

  function Round(x: real): int {
    if x >= 0.0 then (x + 0.5).Floor else -((0.5 - x).Floor)
  }

  lemma RoundError(x: real)
    ensures -0.5 <= Round(x) as real - x <= 0.5
  {
  }

  /** The nearest integer, and of two the one further from zero. */
  lemma RoundIsNearest(x: real, n: int)
    ensures n == Round(x) <==> -0.5 < n as real - x < 0.5
                               || (n as real - x == 0.5 && x > 0.0) || (n as real - x == -0.5 && x < 0.0)
  {
  }

  /** A share of a nonnegative whole amount rounds to a share of it. */
  lemma RoundShare(n: int, f: real)
    requires 0 <= n && 0.0 <= f <= 1.0
    ensures 0 <= Round(n as real * f) <= n
    ensures f == 1.0 ==> Round(n as real * f) == n
  {
    assert 0.0 <= n as real * f <= n as real;
  }

  lemma ShareTimesWhole(m: real, q: real)
    requires q != 0.0
    ensures (m / q) * q == m
  {
  }

  lemma SharesAdd(a: real, b: real, q: real)
    requires q != 0.0
    ensures (a + b) / q == a / q + b / q
    ensures q / q == 1.0
  {
    ShareTimesWhole(a, q);
    ShareTimesWhole(b, q);
    ShareTimesWhole(a + b, q);
    assert (a / q + b / q) * q == a / q * q + b / q * q;
  }
}
