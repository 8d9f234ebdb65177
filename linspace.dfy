/**
 * Evenly spaced integer sample positions, as `linspace(0, stop, num)` in index.js
 * computes them: `num` values from 0 to `stop` inclusive, each rounded to the
 * nearest integer with halves rounded up (JavaScript's `Math.round`).
 * The floating-point quotient is replaced by exact integer arithmetic.
 */
module Linspace {

  /** `Math.round(a / d)` for a positive divisor: the integer nearest to a/d, a half rounded up. */
  function RoundDiv(a: int, d: int): int
    requires d > 0
  {
    (2 * a + d) / (2 * d)
  }

  /** The rounded quotient is within half of a/d, a half going up. */
  lemma RoundDivNearest(a: int, d: int)
    requires d > 0
    ensures 2 * d * RoundDiv(a, d) - d <= 2 * a < 2 * d * RoundDiv(a, d) + d
  {
    var q := (2 * a + d) / (2 * d);
    assert 2 * a + d == 2 * d * q + (2 * a + d) % (2 * d);
  }

  /** A product by a positive factor is strictly below that factor only when the other factor is below 1. */
  lemma BelowOneStep(d: int, e: int)
    requires d > 0 && d * e < d
    ensures e < 1
  {
  }

  /** The rounding bracket determines the rounded value: no other integer satisfies it. */
  lemma RoundDivUnique(a: int, d: int, r: int)
    requires d > 0
    requires 2 * d * r - d <= 2 * a < 2 * d * r + d
    ensures r == RoundDiv(a, d)
  {
    var q := RoundDiv(a, d);
    RoundDivNearest(a, d);
    assert 2 * d * (r - q) == 2 * d * r - 2 * d * q;
    assert 2 * d * (q - r) == 2 * d * q - 2 * d * r;
    BelowOneStep(2 * d, r - q);
    BelowOneStep(2 * d, q - r);
  }

  /** Rounding is monotone in the numerator. */
  lemma RoundDivMonotone(a: int, b: int, d: int)
    requires d > 0 && a <= b
    ensures RoundDiv(a, d) <= RoundDiv(b, d)
  {
    var ra, rb := RoundDiv(a, d), RoundDiv(b, d);
    RoundDivNearest(a, d);
    RoundDivNearest(b, d);
    assert 2 * d * (ra - rb) == 2 * d * ra - 2 * d * rb;
    BelowOneStep(2 * d, ra - rb);
  }

  /**
   * `linspace(0, stop, num)` with the default `endpoint = true`: element i is
   * `Math.round(stop * i / (num - 1))`.
   */
  function Linspace(stop: int, num: nat): (r: seq<int>)
    requires num >= 2
    ensures |r| == num
  {
    seq(num, i requires 0 <= i < num => RoundDiv(stop * i, num - 1))
  }

  /** Sample i is the integer nearest to `stop * i / (num - 1)`, a half rounded up. */
  lemma LinspaceNearest(stop: int, num: nat)
    requires num >= 2
    ensures forall i :: 0 <= i < num ==>
      2 * (num - 1) * Linspace(stop, num)[i] - (num - 1) <= 2 * (stop * i) < 2 * (num - 1) * Linspace(stop, num)[i] + (num - 1)
  {
    forall i | 0 <= i < num {
      RoundDivNearest(stop * i, num - 1);
    }
  }

  /** The first sample is the start 0 and the last is `stop` itself. */
  lemma LinspaceEndpoints(stop: int, num: nat)
    requires num >= 2
    ensures Linspace(stop, num)[0] == 0
    ensures Linspace(stop, num)[num - 1] == stop
  {
    var d := num - 1;
    RoundDivUnique(stop * 0, d, 0);
    assert stop * d == d * stop;
    RoundDivUnique(stop * d, d, stop);
  }

  /** For a non-negative stop the samples never decrease. */
  lemma LinspaceMonotone(stop: int, num: nat)
    requires num >= 2 && stop >= 0
    ensures forall i, i' :: 0 <= i <= i' < num ==> Linspace(stop, num)[i] <= Linspace(stop, num)[i']
  {
    forall i, i' | 0 <= i <= i' < num
      ensures Linspace(stop, num)[i] <= Linspace(stop, num)[i']
    {
      assert stop * i' == stop * i + stop * (i' - i);
      assert stop * (i' - i) >= 0;
      RoundDivMonotone(stop * i, stop * i', num - 1);
    }
  }

  /** For a non-negative stop every sample is a valid index into an axis of length `stop + 1`. */
  lemma LinspaceBounds(stop: int, num: nat)
    requires num >= 2 && stop >= 0
    ensures forall i :: 0 <= i < num ==> 0 <= Linspace(stop, num)[i] <= stop
  {
    LinspaceEndpoints(stop, num);
    LinspaceMonotone(stop, num);
  }

  /** Three samples over a length-3 axis hit every index, the middle one in the centre. */
  lemma LinspaceThreeByThree()
    ensures Linspace(2, 3) == [0, 1, 2]
  {
    var r := Linspace(2, 3);
    LinspaceEndpoints(2, 3);
    RoundDivUnique(2 * 1, 2, 1);
  }
}
