/** Brier scoring of a forecast and the reputation bookkeeping built on it. */
module Reputation {
  import opened Common

  /** The one-hot outcome vector: 1 at the realised outcome, 0 elsewhere. */
  function Indicator(i: int, outcomeIndex: int): real
  {
    if i == outcomeIndex then 1.0 else 0.0
  }

  /** Sum over the entries of (p_i - o_i)^2, accumulated left to right. */
  function Brier(p: seq<real>, outcomeIndex: int): (r: real)
    ensures r >= 0.0
    decreases |p|
  {
    if p == [] then 0.0
    else
      var d := p[|p| - 1] - Indicator(|p| - 1, outcomeIndex);
      assert d * d >= 0.0;
      Brier(p[..|p| - 1], outcomeIndex) + d * d
  }

  /** Sum of squares of the entries. */
  function SumSquares(p: seq<real>): real
    decreases |p|
  {
    if p == [] then 0.0 else SumSquares(p[..|p| - 1]) + p[|p| - 1] * p[|p| - 1]
  }

  /** The scoring loop agrees with Brier. */
  method BrierScore(probabilities: seq<real>, outcomeIndex: int) returns (sum: real)
    ensures sum == Brier(probabilities, outcomeIndex)
  {
    var n := |probabilities|;
    sum := 0.0;
    for i := 0 to n
      invariant sum == Brier(probabilities[..i], outcomeIndex)
    {
      var o := if i == outcomeIndex then 1.0 else 0.0;
      var d := probabilities[i] - o;
      assert probabilities[..i + 1][..i] == probabilities[..i];
      sum := sum + d * d;
    }
    assert probabilities[..n] == probabilities;
  }

  /** An index outside the vector scores every entry against 0. */
  lemma {:induction false} BrierOutOfRange(p: seq<real>, outcomeIndex: int)
    requires outcomeIndex < 0 || outcomeIndex >= |p|
    ensures Brier(p, outcomeIndex) == SumSquares(p)
    decreases |p|
  {
    if p != [] {
      BrierOutOfRange(p[..|p| - 1], outcomeIndex);
    }
  }

  /** For an index in range: Brier = sum of squares - 2 p_k + 1. */
  lemma {:induction false} BrierExpanded(p: seq<real>, outcomeIndex: int)
    requires 0 <= outcomeIndex < |p|
    ensures Brier(p, outcomeIndex) == SumSquares(p) - 2.0 * p[outcomeIndex] + 1.0
    decreases |p|
  {
    var init := p[..|p| - 1];
    var x := p[|p| - 1];
    if outcomeIndex == |p| - 1 {
      BrierOutOfRange(init, outcomeIndex);
      assert (x - 1.0) * (x - 1.0) == x * x - 2.0 * x + 1.0;
    } else {
      BrierExpanded(init, outcomeIndex);
    }
  }

  /** Entries in [0, 1] have squares no larger than themselves. */
  lemma {:induction false} SumSquaresAtMostSum(p: seq<real>)
    requires forall i :: 0 <= i < |p| ==> 0.0 <= p[i] <= 1.0
    ensures SumSquares(p) <= Sum(p)
    decreases |p|
  {
    if p != [] {
      var init, x := p[..|p| - 1], p[|p| - 1];
      SumSquaresAtMostSum(init);
      SquareAtMost(x);
      calc {
        SumSquares(p);
        SumSquares(init) + x * x;
      <= Sum(init) + x * x;
      <= Sum(init) + x;
        Sum(p);
      }
    }
  }

  lemma SquareAtMost(x: real)
    requires 0.0 <= x <= 1.0
    ensures x * x <= x
  {
    MulMonotone(x, 1.0, x);
  }

  /** A probability vector scored at an index in range scores at most 2. */
  lemma BrierAtMostTwo(p: seq<real>, outcomeIndex: int)
    requires NonNegative(p) && Sum(p) == 1.0 && 0 <= outcomeIndex < |p|
    ensures 0.0 <= Brier(p, outcomeIndex) <= 2.0
  {
    forall i | 0 <= i < |p| ensures p[i] <= 1.0 {
      EntryAtMostSum(p, i);
    }
    SumSquaresAtMostSum(p);
    BrierExpanded(p, outcomeIndex);
  }

  /** A forecast that put everything on the realised outcome scores 0. */
  lemma {:induction false} PerfectForecast(p: seq<real>, outcomeIndex: int)
    requires forall i :: 0 <= i < |p| ==> p[i] == Indicator(i, outcomeIndex)
    ensures Brier(p, outcomeIndex) == 0.0
    decreases |p|
  {
    if p != [] {
      PerfectForecast(p[..|p| - 1], outcomeIndex);
    }
  }

  lemma BrierExamples()
    ensures Brier([1.0, 0.0], 0) == 0.0
    ensures Brier([0.5, 0.5], 0) == 0.5
    ensures Brier([0.0, 1.0], 0) == 2.0
  {
    assert [1.0, 0.0][..1] == [1.0] && [1.0][..0] == [];
    assert [0.5, 0.5][..1] == [0.5] && [0.5][..0] == [];
    assert [0.0, 1.0][..1] == [0.0] && [0.0][..0] == [];
  }

  /** The largest Brier score of a probability vector, used to normalise. */
  const MaxBrier: real := 2.0

  function Clamp01(x: real): (r: real)
    ensures 0.0 <= r <= 1.0
    ensures 0.0 <= x <= 1.0 ==> r == x
  {
    if x < 0.0 then 0.0 else if x > 1.0 then 1.0 else x
  }

  /**
   * Reputation change for a Brier score: 1 - brier / 2 clamped to [0, 1] and
   * mapped linearly onto [-5, 5]. nOutcomes is accepted and ignored.
   */
  function ReputationDeltaFromBrier(brier: real, nOutcomes: int): (r: real)
    ensures -5.0 <= r <= 5.0
  {
    Clamp01(1.0 - brier / MaxBrier) * 10.0 - 5.0
  }

  /** Over the scores a probability vector can get, [0, 2], the delta falls linearly from 5 to -5. */
  lemma DeltaLinear(brier: real, nOutcomes: int)
    requires 0.0 <= brier <= 2.0
    ensures ReputationDeltaFromBrier(brier, nOutcomes) == 5.0 - 5.0 * brier
  {
  }

  lemma DeltaExtremes(nOutcomes: int)
    ensures ReputationDeltaFromBrier(0.0, nOutcomes) == 5.0
    ensures forall brier :: brier >= 2.0 ==> ReputationDeltaFromBrier(brier, nOutcomes) == -5.0
  {
  }

  lemma DeltaNonIncreasing(b1: real, b2: real, nOutcomes: int)
    requires b1 <= b2
    ensures ReputationDeltaFromBrier(b1, nOutcomes) >= ReputationDeltaFromBrier(b2, nOutcomes)
  {
  }

  lemma DeltaIgnoresOutcomeCount(brier: real, n1: int, n2: int)
    ensures ReputationDeltaFromBrier(brier, n1) == ReputationDeltaFromBrier(brier, n2)
  {
  }

  datatype Average = Average(newAvg: real, newCount: nat)

  /** Fold one more delta into a running mean over oldCount earlier deltas. */
  function UpdateAverageReputation(oldAvg: real, oldCount: nat, delta: real): (r: Average)
    ensures r.newCount == oldCount + 1
    ensures r.newAvg * r.newCount as real == oldAvg * oldCount as real + delta
  {
    var newCount := oldCount + 1;
    var total := oldAvg * oldCount as real + delta;
    DivMulCancel(total, newCount as real);
    Average(total / newCount as real, newCount)
  }

  lemma FirstRatingIsDelta(oldAvg: real, delta: real)
    ensures UpdateAverageReputation(oldAvg, 0, delta).newAvg == delta
  {
  }

  /** A mean of values in [lo, hi] stays in [lo, hi]. */
  lemma AverageStaysInBounds(oldAvg: real, oldCount: nat, delta: real, lo: real, hi: real)
    requires lo <= oldAvg <= hi && lo <= delta <= hi
    ensures lo <= UpdateAverageReputation(oldAvg, oldCount, delta).newAvg <= hi
  {
    var r := UpdateAverageReputation(oldAvg, oldCount, delta);
    var n := oldCount as real;
    TotalInBounds(oldAvg, n, delta, lo, hi);
    MulCancelLe(lo, r.newAvg, n + 1.0);
    MulCancelLe(r.newAvg, hi, n + 1.0);
  }

  lemma TotalInBounds(oldAvg: real, n: real, delta: real, lo: real, hi: real)
    requires n >= 0.0 && lo <= oldAvg <= hi && lo <= delta <= hi
    ensures lo * (n + 1.0) <= oldAvg * n + delta <= hi * (n + 1.0)
  {
    MulMonotone(lo, oldAvg, n);
    MulMonotone(oldAvg, hi, n);
  }

  lemma MulMonotone(a: real, b: real, c: real)
    requires a <= b && c >= 0.0
    ensures a * c <= b * c
  {
  }

  lemma MulCancelLe(a: real, b: real, c: real)
    requires c > 0.0 && a * c <= b * c
    ensures a <= b
  {
    DivMulCancel(a, c);
    DivMulCancel(b, c);
    assert (b * c - a * c) / c >= 0.0 by { NonNegativeQuotient(b * c - a * c, c); }
    assert (b * c - a * c) / c == b - a;
  }
}
