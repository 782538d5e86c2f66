/**
 * Integer arithmetic for the running average kept in each analytics row.
 * `Math.round(x)` rounds to the nearest integer with halves going up; for a
 * quotient of non-negative integers it needs no floating point.
 */
module Rounding {

  /** `Math.round(p / q)`: the integer nearest to p/q, a half rounding up. */
  function RoundDiv(p: nat, q: nat): nat
    requires q > 0
  {
    (2 * p + q) / (2 * q)
  }

  /** The rounded quotient is within half a unit of p/q, a half rounding up. */
  lemma RoundDivNearest(p: nat, q: nat)
    requires q > 0
    ensures 2 * q * RoundDiv(p, q) <= 2 * p + q < 2 * q * (RoundDiv(p, q) + 1)
  {
  }

  /** The rounded quotient is the only integer within half a unit of p/q (halves going up). */
  lemma RoundDivUnique(p: nat, q: nat, r: nat)
    requires q > 0
    requires 2 * q * r <= 2 * p + q < 2 * q * (r + 1)
    ensures RoundDiv(p, q) == r
  {
    var s := RoundDiv(p, q);
    RoundDivNearest(p, q);
    MulMono(2 * q, s + 1, r);
    MulMono(2 * q, r + 1, s);
  }

  /** Rounding a quotient whose exact value lies in [lo, hi] stays in [lo, hi]. */
  lemma RoundDivWithin(p: nat, q: nat, lo: nat, hi: nat)
    requires q > 0
    requires q * lo <= p <= q * hi
    ensures lo <= RoundDiv(p, q) <= hi
  {
    var r := RoundDiv(p, q);
    RoundDivNearest(p, q);
    MulMono(2 * q, hi + 1, r);
    MulMono(2 * q, r + 1, lo);
    assert 2 * q * (hi + 1) == 2 * (q * hi) + 2 * q;
    assert 2 * q * lo == 2 * (q * lo);
  }

  lemma {:induction false} MulMono(k: nat, a: nat, b: nat)
    ensures a <= b ==> k * a <= k * b
  {
    if k > 0 {
      MulMono(k - 1, a, b);
      assert k * a == (k - 1) * a + a && k * b == (k - 1) * b + b;
    }
  }

  /**
   * The average after one more sample: the old average `avg` over `n`
   * samples is turned back into a total, the new sample `r` is added, and
   * the sum is divided by n + 1 and rounded.
   */
  function RunningAverage(avg: nat, n: nat, r: nat): nat
  {
    RoundDiv(avg * n + r, n + 1)
  }

  /** The new average lies between the old average and the new sample. */
  lemma RunningAverageWithin(avg: nat, n: nat, r: nat, lo: nat, hi: nat)
    requires lo <= avg <= hi && lo <= r <= hi
    ensures lo <= RunningAverage(avg, n, r) <= hi
  {
    MulMono(n, lo, avg);
    MulMono(n, avg, hi);
    assert (n + 1) * lo == n * lo + lo;
    assert (n + 1) * hi == n * hi + hi;
    RoundDivWithin(avg * n + r, n + 1, lo, hi);
  }

  /** A sample equal to the current average leaves the average unchanged. */
  lemma RunningAverageOfEqual(avg: nat, n: nat)
    ensures RunningAverage(avg, n, avg) == avg
  {
    RunningAverageWithin(avg, n, avg, avg, avg);
  }
}
