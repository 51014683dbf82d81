/**
 * Parimutuel odds: implied probabilities from the stake committed to each
 * outcome, and the virtual payout per point were that outcome to win.
 */
module Parimutuel {
  import opened Common

  /** Smoothing constant added to every pool entry (1e-6). */
  const Eps: real := 0.000001

  datatype Odds = Odds(probabilities: seq<real>, payoutPerPoint: seq<real>)

  /** Negative pool entries count as 0. */
  function Sanitize(pool: seq<real>): (s: seq<real>)
    ensures |s| == |pool| && NonNegative(s)
    ensures forall i :: 0 <= i < |pool| ==> (pool[i] >= 0.0 ==> s[i] == pool[i]) && (pool[i] < 0.0 ==> s[i] == 0.0)
  {
    seq(|pool|, i requires 0 <= i < |pool| => if pool[i] >= 0.0 then pool[i] else 0.0)
  }

  /** Each entry smoothed by `Eps` and divided by `d`. */
  function Shares(s: seq<real>, d: real): (r: seq<real>)
    requires d != 0.0
    ensures |r| == |s|
    decreases |s|
  {
    if s == [] then [] else Shares(s[..|s| - 1], d) + [(s[|s| - 1] + Eps) / d]
  }

  lemma {:induction false} SharesAt(s: seq<real>, d: real, i: int)
    requires d != 0.0 && 0 <= i < |s|
    ensures Shares(s, d)[i] == (s[i] + Eps) / d
    decreases |s|
  {
    if i < |s| - 1 {
      SharesAt(s[..|s| - 1], d, i);
    }
  }

  lemma {:induction false} SumShares(s: seq<real>, d: real)
    requires d != 0.0
    ensures Sum(Shares(s, d)) == (Sum(s) + Eps * |s| as real) / d
    decreases |s|
  {
    if s != [] {
      var s' := s[..|s| - 1];
      var x := s[|s| - 1];
      SumShares(s', d);
      SumAppend(Shares(s', d), (x + Eps) / d);
      DivAdd(Sum(s') + Eps * |s'| as real, x + Eps, d);
    }
  }

  /** Multiple of each stake a winner would receive: sum/p, or sum/Eps for an empty outcome. */
  function Payouts(s: seq<real>, sum: real): (r: seq<real>)
    ensures |r| == |s|
  {
    seq(|s|, i requires 0 <= i < |s| => if s[i] <= 0.0 then sum / Eps else sum / s[i])
  }

  function ComputeParimutuelOdds(pool: seq<real>): (r: Odds)
    ensures |r.probabilities| == |r.payoutPerPoint| == Max(1, |pool|)
  {
    var s := Sanitize(pool);
    if Sum(s) <= 0.0 then UniformOdds(Max(1, |s|)) else LiquidOdds(s)
  }

  /** Fallback without liquidity: n equal probabilities. */
  function UniformOdds(n: nat): (r: Odds)
    requires n > 0
    ensures |r.probabilities| == |r.payoutPerPoint| == n
  {
    var probs := Repeat(1.0 / n as real, n);
    Odds(probs, Repeat(1.0 / (1.0 / n as real + Eps), n))
  }

  /** Smoothed pool shares and per-point payouts of a sanitised pool with positive total. */
  function LiquidOdds(s: seq<real>): (r: Odds)
    requires NonNegative(s) && Sum(s) > 0.0
    ensures |r.probabilities| == |r.payoutPerPoint| == |s|
  {
    Odds(Shares(s, Denominator(s)), Payouts(s, Sum(s)))
  }

  /** The smoothed total sum + Eps * n that every probability is divided by. */
  function Denominator(s: seq<real>): (d: real)
    ensures s != [] ==> d >= Sum(s) + Eps
    ensures |s| >= 2 ==> d >= Sum(s) + 2.0 * Eps
  {
    Sum(s) + Eps * |s| as real
  }

  /** The uniform fallback applies exactly when no outcome has a positive stake. */
  lemma NoLiquidityIff(pool: seq<real>)
    ensures Sum(Sanitize(pool)) <= 0.0 <==> forall i :: 0 <= i < |pool| ==> pool[i] <= 0.0
  {
    var s := Sanitize(pool);
    if Sum(s) <= 0.0 {
      forall i | 0 <= i < |pool| ensures pool[i] <= 0.0 {
        ZeroSumNonNegative(s, i);
      }
    } else {
      SumPositiveWitness(s);
    }
  }

  lemma {:induction false} SumPositiveWitness(s: seq<real>)
    requires Sum(s) > 0.0
    ensures exists i :: 0 <= i < |s| && s[i] > 0.0
    decreases |s|
  {
    var s' := s[..|s| - 1];
    if s[|s| - 1] <= 0.0 {
      SumPositiveWitness(s');
      var i :| 0 <= i < |s'| && s'[i] > 0.0;
      assert s[i] > 0.0;
    }
  }

  /** Without liquidity every probability is 1/n and every payout 1/(1/n + Eps), n = max(1, |pool|). */
  lemma NoLiquidityUniform(pool: seq<real>)
    requires Sum(Sanitize(pool)) <= 0.0
    ensures var r, n := ComputeParimutuelOdds(pool), Max(1, |pool|);
      forall i :: 0 <= i < n ==>
        r.probabilities[i] == 1.0 / n as real && r.payoutPerPoint[i] == 1.0 / (1.0 / n as real + Eps)
  {
    var n := Max(1, |pool|);
    forall i | 0 <= i < n
      ensures ComputeParimutuelOdds(pool).probabilities[i] == 1.0 / n as real
      ensures ComputeParimutuelOdds(pool).payoutPerPoint[i] == 1.0 / (1.0 / n as real + Eps)
    {
      RepeatAt(1.0 / n as real, n, i);
      RepeatAt(1.0 / (1.0 / n as real + Eps), n, i);
    }
  }

  /** An empty pool still yields one outcome at probability 1. */
  lemma EmptyPoolSingleOutcome()
    ensures ComputeParimutuelOdds([]).probabilities == [1.0]
  {
    assert Sum(Sanitize([])) == 0.0;
  }

  /** With liquidity, probability i is (p_i + Eps) / (sum + Eps * n). */
  lemma LiquidProbabilities(pool: seq<real>, i: int)
    requires Sum(Sanitize(pool)) > 0.0 && 0 <= i < |pool|
    ensures var s := Sanitize(pool);
      ComputeParimutuelOdds(pool).probabilities[i] == (s[i] + Eps) / Denominator(s)
  {
    var s := Sanitize(pool);
    SharesAt(s, Denominator(s), i);
  }

  /** The probabilities always sum to 1. */
  lemma ProbabilitiesSumToOne(pool: seq<real>)
    ensures Sum(ComputeParimutuelOdds(pool).probabilities) == 1.0
  {
    var s := Sanitize(pool);
    var sum := Sum(s);
    if sum <= 0.0 {
      UniformSumsToOne(Max(1, |s|));
    } else {
      SmoothedSharesSumToOne(s);
    }
  }

  lemma UniformSumsToOne(n: nat)
    requires n > 0
    ensures Sum(Repeat(1.0 / n as real, n)) == 1.0
  {
    SumRepeat(1.0 / n as real, n);
    DivMulCancel(1.0, n as real);
  }

  lemma SmoothedSharesSumToOne(s: seq<real>)
    requires NonNegative(s) && Sum(s) > 0.0
    ensures Sum(Shares(s, Denominator(s))) == 1.0
  {
    var d := Denominator(s);
    SumShares(s, d);
    DivMulCancel(d, d);
  }

  /** With liquidity every probability is positive and at most 1, and below 1 once there are two outcomes. */
  lemma ProbabilitiesInRange(pool: seq<real>, i: int)
    requires Sum(Sanitize(pool)) > 0.0 && 0 <= i < |pool|
    ensures var p := ComputeParimutuelOdds(pool).probabilities[i];
      0.0 < p <= 1.0 && (|pool| >= 2 ==> p < 1.0)
  {
    var s := Sanitize(pool);
    var d := Denominator(s);
    LiquidProbabilities(pool, i);
    EntryAtMostSum(s, i);
    var x := s[i] + Eps;
    assert 0.0 < x <= d;
    PositiveQuotient(x, d);
    if x < d {
      QuotientBelowOne(x, d);
    }
    assert |pool| >= 2 ==> x < d;
  }

  /** With liquidity, probabilities are ordered as the sanitised stakes are. */
  lemma ProbabilitiesOrdered(pool: seq<real>, i: int, j: int)
    requires Sum(Sanitize(pool)) > 0.0 && 0 <= i < |pool| && 0 <= j < |pool|
    ensures var s, p := Sanitize(pool), ComputeParimutuelOdds(pool).probabilities;
      s[i] <= s[j] <==> p[i] <= p[j]
  {
    var s := Sanitize(pool);
    var d := Denominator(s);
    LiquidProbabilities(pool, i);
    LiquidProbabilities(pool, j);
    var u, v := s[i] + Eps, s[j] + Eps;
    if u < v {
      FracLt(u, d, v, d);
    } else if v < u {
      FracLt(v, d, u, d);
    }
  }

  /** With liquidity, a staked outcome pays sum/p_i (at least 1), an unstaked one sum/Eps. */
  lemma PayoutPerPoint(pool: seq<real>, i: int)
    requires Sum(Sanitize(pool)) > 0.0 && 0 <= i < |pool|
    ensures var s, r := Sanitize(pool), ComputeParimutuelOdds(pool).payoutPerPoint[i];
      (s[i] > 0.0 ==> r == Sum(s) / s[i] && r >= 1.0) && (s[i] == 0.0 ==> r == Sum(s) / Eps)
  {
    var s := Sanitize(pool);
    if s[i] > 0.0 {
      EntryAtMostSum(s, i);
      QuotientAtLeastOne(Sum(s), s[i]);
    }
  }

  /** Pools 10, 20, 5 pay 3.5, 1.75 and 7 per point. */
  lemma ThreeOutcomeExample()
    ensures ComputeParimutuelOdds([10.0, 20.0, 5.0]).payoutPerPoint == [3.5, 1.75, 7.0]
  {
    var s := Sanitize([10.0, 20.0, 5.0]);
    assert s == [10.0, 20.0, 5.0];
    assert Sum([10.0]) == 10.0 by { assert [10.0][..0] == []; }
    assert Sum([10.0, 20.0]) == 30.0 by { assert [10.0, 20.0][..1] == [10.0]; }
    assert Sum(s) == 35.0 by { assert s[..2] == [10.0, 20.0]; }
  }
}
