/**
  The scroll-step partition shared by the Projects showcase and the
  Experience timeline: the scroll progress range [0, 1] is cut into
  `n` equal steps, one per displayed item, and step `i` ends at the
  threshold (i+1)/n.  Progress values are exact reals here.
 */
module Partition {

  /** Non-strictly increasing sequence of reals. */
  predicate Sorted(t: seq<real>) {
    forall i, j :: 0 <= i < j < |t| ==> t[i] <= t[j]
  }

  /** Strictly increasing sequence of reals. */
  predicate StrictlyIncreasing(t: seq<real>) {
    forall i, j :: 0 <= i < j < |t| ==> t[i] < t[j]
  }

  /** The thresholds for `n` items: one entry per item; entry `i`,
      multiplied by the item count, gives the number of steps `i+1`
      that end at or before it. */
  function Thresholds(n: nat): (t: seq<real>)
    ensures |t| == n
    ensures forall i :: 0 <= i < n ==> t[i] * n as real == (i + 1) as real
  {
    seq(n, i requires 0 <= i < n => (i + 1) as real / n as real)
  }

  /** Dividing by the same positive real keeps a strict order. */
  lemma DivideKeepsOrder(a: real, b: real, d: real)
    requires a < b && 0.0 < d
    ensures a / d < b / d
  {
    assert (b - a) / d > 0.0;
    assert b / d - a / d == (b - a) / d;
  }

  lemma ThresholdsStrictlyIncreasing(n: nat)
    ensures StrictlyIncreasing(Thresholds(n))
  {
    var t := Thresholds(n);
    forall i, j | 0 <= i < j < n
      ensures t[i] < t[j]
    {
      DivideKeepsOrder((i + 1) as real, (j + 1) as real, n as real);
    }
  }

  lemma ThresholdsSorted(n: nat)
    ensures Sorted(Thresholds(n))
  {
    ThresholdsStrictlyIncreasing(n);
  }

  /** Every threshold lies in (0, 1], the first one is one step wide
      and the last one is exactly 1. */
  lemma ThresholdsInUnitRange(n: nat)
    ensures forall i :: 0 <= i < n ==> 0.0 < Thresholds(n)[i] <= 1.0
    ensures n >= 1 ==> Thresholds(n)[0] == 1.0 / n as real
    ensures n >= 1 ==> Thresholds(n)[n - 1] == 1.0
  {
    var t := Thresholds(n);
    forall i | 0 <= i < n
      ensures 0.0 < t[i] <= 1.0
    {
      assert t[i] == (i + 1) as real / n as real;
      DivideKeepsOrder(0.0, (i + 1) as real, n as real);
      if i + 1 < n {
        DivideKeepsOrder((i + 1) as real, n as real, n as real);
      }
    }
  }

  /** Consecutive thresholds are exactly one step (1/n) apart. */
  lemma ThresholdsEqualSteps(n: nat)
    ensures forall i :: 0 <= i < n - 1 ==>
      Thresholds(n)[i + 1] - Thresholds(n)[i] == 1.0 / n as real
  {
    var t := Thresholds(n);
    forall i | 0 <= i < n - 1
      ensures t[i + 1] - t[i] == 1.0 / n as real
    {
      assert t[i + 1] == (i + 2) as real / n as real;
      assert t[i] == (i + 1) as real / n as real;
    }
  }
}
