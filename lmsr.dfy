/**
 * Log market scoring rule market maker over outstanding shares q with
 * liquidity b: cost C(q) = b * ln(sum_i exp(q_i / b)), prices are the
 * softmax of q / b.
 */
module Lmsr {
  import opened Common

  /**
   * The floating-point exponential and logarithm, given by the laws the
   * model relies on rather than by a definition: exp is positive and
   * strictly increasing, ln is strictly increasing on the positives, and
   * (stated apart, since only one lemma needs it) ln undoes exp.
   */
  datatype MathFns = MathFns(exp: real -> real, ln: real -> real) {
    ghost predicate Lawful() {
      && (forall x :: exp(x) > 0.0)
      && (forall x, y :: x < y ==> exp(x) < exp(y))
      && (forall x, y :: 0.0 < x < y ==> ln(x) < ln(y))
    }

    ghost predicate LnInvertsExp() {
      forall x :: ln(exp(x)) == x
    }
  }

  /** A rational stand-in for exp: x + 1 on the right, 1 / (1 - x) on the left. */
  function RationalExp(x: real): real
  {
    if x >= 0.0 then x + 1.0 else 1.0 / (1.0 - x)
  }

  /** Its inverse on the positives: y - 1 from 1 up, 1 - 1 / y below 1. */
  function RationalLn(y: real): real
  {
    if y >= 1.0 then y - 1.0 else if y > 0.0 then 1.0 - 1.0 / y else 0.0
  }

  /** The laws are consistent: this pair meets all of them. */
  lemma RationalIsLawful()
    ensures MathFns(RationalExp, RationalLn).Lawful()
    ensures MathFns(RationalExp, RationalLn).LnInvertsExp()
  {
    forall x ensures RationalExp(x) > 0.0 && RationalLn(RationalExp(x)) == x {
      if x < 0.0 {
        PositiveQuotient(1.0, 1.0 - x);
        QuotientBelowOne(1.0, 1.0 - x);
        DivMulCancel(1.0, 1.0 - x);
        assert 1.0 / (1.0 / (1.0 - x)) == 1.0 - x;
      }
    }
    forall x, y | x < y ensures RationalExp(x) < RationalExp(y) {
      if y < 0.0 {
        FracLt(1.0, 1.0 - x, 1.0, 1.0 - y);
      } else if x < 0.0 {
        QuotientBelowOne(1.0, 1.0 - x);
      }
    }
    forall x, y | 0.0 < x < y ensures RationalLn(x) < RationalLn(y) {
      if y < 1.0 {
        FracLt(1.0, y, 1.0, x);
      } else if x < 1.0 {
        FracLt(1.0, 1.0, 1.0, x);
      }
    }
  }

  /** exp(q_i / b) for every outcome. */
  function Exps(m: MathFns, q: seq<real>, b: real): (r: seq<real>)
    requires b != 0.0
    ensures |r| == |q|
    decreases |q|
  {
    if q == [] then [] else Exps(m, q[..|q| - 1], b) + [m.exp(q[|q| - 1] / b)]
  }

  lemma {:induction false} ExpsAt(m: MathFns, q: seq<real>, b: real, i: int)
    requires b != 0.0 && 0 <= i < |q|
    ensures Exps(m, q, b)[i] == m.exp(q[i] / b)
    decreases |q|
  {
    if i < |q| - 1 {
      ExpsAt(m, q[..|q| - 1], b, i);
    }
  }

  lemma ExpsPositive(m: MathFns, q: seq<real>, b: real)
    requires m.Lawful() && b != 0.0
    ensures NonNegative(Exps(m, q, b))
    ensures q != [] ==> Sum(Exps(m, q, b)) > 0.0
  {
    var e := Exps(m, q, b);
    forall i | 0 <= i < |q| ensures e[i] > 0.0 {
      ExpsAt(m, q, b, i);
    }
    if q != [] {
      SumNonNegative(e[..|e| - 1]);
      assert e[..|e| - 1] == Exps(m, q[..|q| - 1], b);
    }
  }

  /** Changing one share changes only the matching exponential. */
  lemma {:induction false} ExpsUpdate(m: MathFns, q: seq<real>, b: real, i: int, x: real)
    requires b != 0.0 && 0 <= i < |q|
    ensures Exps(m, q[i := x], b) == Exps(m, q, b)[i := m.exp(x / b)]
    decreases |q|
  {
    var q' := q[i := x];
    assert q'[..|q'| - 1] == if i < |q| - 1 then q[..|q| - 1][i := x] else q[..|q| - 1];
    if i < |q| - 1 {
      ExpsUpdate(m, q[..|q| - 1], b, i, x);
    }
  }

  /** Replacing one entry moves the sum by the difference. */
  lemma {:induction false} SumUpdate(s: seq<real>, i: int, x: real)
    requires 0 <= i < |s|
    ensures Sum(s[i := x]) == Sum(s) - s[i] + x
    decreases |s|
  {
    var s' := s[i := x];
    if i < |s| - 1 {
      assert s'[..|s'| - 1] == s[..|s| - 1][i := x];
      SumUpdate(s[..|s| - 1], i, x);
    } else {
      assert s'[..|s'| - 1] == s[..|s| - 1];
    }
  }

  /** The partition sum: sum_i exp(q_i / b), accumulated left to right. */
  function Partition(m: MathFns, q: seq<real>, b: real): real
    requires b != 0.0
    decreases |q|
  {
    if q == [] then 0.0 else Partition(m, q[..|q| - 1], b) + m.exp(q[|q| - 1] / b)
  }

  /** The partition sum is the sum of the exponentials the prices use. */
  lemma {:induction false} PartitionIsSum(m: MathFns, q: seq<real>, b: real)
    requires b != 0.0
    ensures Partition(m, q, b) == Sum(Exps(m, q, b))
    decreases |q|
  {
    if q != [] {
      PartitionIsSum(m, q[..|q| - 1], b);
      SumAppend(Exps(m, q[..|q| - 1], b), m.exp(q[|q| - 1] / b));
    }
  }

  /**
   * C(q) = b * ln(sum_i exp(q_i / b)). With one outcome the cost is its
   * share count, b * ln(exp(x / b)) == x, when ln inverts exp.
   */
  function Cost(m: MathFns, q: seq<real>, b: real): (r: real)
    requires b != 0.0
    ensures m.LnInvertsExp() && |q| == 1 ==> r == q[0]
  {
    OneOutcomePartition(m, q, b);
    b * m.ln(Partition(m, q, b))
  }

  lemma OneOutcomePartition(m: MathFns, q: seq<real>, b: real)
    requires b != 0.0
    ensures m.LnInvertsExp() && |q| == 1 ==> b * m.ln(Partition(m, q, b)) == q[0]
  {
    if |q| == 1 {
      assert q[..0] == [];
      assert Partition(m, q, b) == m.exp(q[0] / b);
      DivMulCancel(q[0], b);
    }
  }

  /** Each entry divided by d. */
  function Normalize(e: seq<real>, d: real): (r: seq<real>)
    requires d != 0.0
    ensures |r| == |e|
    decreases |e|
  {
    if e == [] then [] else Normalize(e[..|e| - 1], d) + [e[|e| - 1] / d]
  }

  lemma {:induction false} NormalizeAt(e: seq<real>, d: real, i: int)
    requires d != 0.0 && 0 <= i < |e|
    ensures Normalize(e, d)[i] == e[i] / d
    decreases |e|
  {
    if i < |e| - 1 {
      NormalizeAt(e[..|e| - 1], d, i);
    }
  }

  lemma {:induction false} SumNormalize(e: seq<real>, d: real)
    requires d != 0.0
    ensures Sum(Normalize(e, d)) == Sum(e) / d
    decreases |e|
  {
    if e != [] {
      var e' := e[..|e| - 1];
      SumNormalize(e', d);
      SumAppend(Normalize(e', d), e[|e| - 1] / d);
      DivAdd(Sum(e'), e[|e| - 1], d);
    }
  }

  /** Softmax prices exp(q_i / b) / sum_j exp(q_j / b). */
  function GetPrices(m: MathFns, q: seq<real>, b: real): (r: seq<real>)
    requires m.Lawful() && b != 0.0
    ensures |r| == |q|
  {
    var e := Exps(m, q, b);
    ExpsPositive(m, q, b);
    if q == [] then [] else Normalize(e, Sum(e))
  }

  /** Price i is the softmax weight of outcome i. */
  lemma PriceAt(m: MathFns, q: seq<real>, b: real, i: int)
    requires m.Lawful() && b != 0.0 && 0 <= i < |q|
    ensures Sum(Exps(m, q, b)) > 0.0
    ensures GetPrices(m, q, b)[i] == m.exp(q[i] / b) / Sum(Exps(m, q, b))
  {
    ExpsPositive(m, q, b);
    NormalizeAt(Exps(m, q, b), Sum(Exps(m, q, b)), i);
    ExpsAt(m, q, b, i);
  }

  /** Prices form a probability vector: every entry positive, summing to 1. */
  lemma PricesAreProbabilities(m: MathFns, q: seq<real>, b: real)
    requires m.Lawful() && b != 0.0 && q != []
    ensures var p := GetPrices(m, q, b);
      (forall i :: 0 <= i < |p| ==> p[i] > 0.0) && Sum(p) == 1.0
  {
    var e := Exps(m, q, b);
    ExpsPositive(m, q, b);
    var d := Sum(e);
    forall i | 0 <= i < |q| ensures GetPrices(m, q, b)[i] > 0.0 {
      PriceAt(m, q, b, i);
      PositiveQuotient(m.exp(q[i] / b), d);
    }
    SumNormalize(e, d);
    DivMulCancel(d, d);
  }

  /** Prices are ordered as the shares are (for b > 0). */
  lemma PricesOrdered(m: MathFns, q: seq<real>, b: real, i: int, j: int)
    requires m.Lawful() && b > 0.0 && 0 <= i < |q| && 0 <= j < |q|
    ensures q[i] < q[j] <==> GetPrices(m, q, b)[i] < GetPrices(m, q, b)[j]
  {
    ExpsPositive(m, q, b);
    var d := Sum(Exps(m, q, b));
    PriceAt(m, q, b, i);
    PriceAt(m, q, b, j);
    var u, v := m.exp(q[i] / b), m.exp(q[j] / b);
    if q[i] < q[j] {
      DivLt(q[i], q[j], b);
      MulLtRight(u, v, d);
      FracLt(u, d, v, d);
    } else if q[j] < q[i] {
      DivLt(q[j], q[i], b);
      MulLtRight(v, u, d);
      FracLt(v, d, u, d);
    } else {
      assert u == v;
    }
  }

  /** Equal shares give uniform prices 1/n. */
  lemma EqualSharesUniformPrices(m: MathFns, q: seq<real>, b: real, i: int)
    requires m.Lawful() && b != 0.0 && 0 <= i < |q|
    requires forall j :: 0 <= j < |q| ==> q[j] == q[0]
    ensures GetPrices(m, q, b)[i] == 1.0 / |q| as real
  {
    var e := m.exp(q[0] / b);
    EqualSharesExpSum(m, q, b);
    PriceAt(m, q, b, i);
    assert q[i] == q[0];
    UniformShare(e, |q| as real);
  }

  lemma EqualSharesExpSum(m: MathFns, q: seq<real>, b: real)
    requires b != 0.0 && q != []
    requires forall j :: 0 <= j < |q| ==> q[j] == q[0]
    ensures Sum(Exps(m, q, b)) == |q| as real * m.exp(q[0] / b)
  {
    var e := m.exp(q[0] / b);
    ExpsEqual(m, q, b);
    SumRepeat(e, |q|);
    assert Sum(Exps(m, q, b)) == Sum(Repeat(e, |q|));
  }

  lemma UniformShare(e: real, n: real)
    requires e > 0.0 && n > 0.0
    ensures e / (n * e) == 1.0 / n
  {
    DivScale(1.0, n, e);
    assert e * 1.0 == e && e * n == n * e;
  }

  lemma {:induction false} ExpsEqual(m: MathFns, q: seq<real>, b: real)
    requires b != 0.0 && q != []
    requires forall j :: 0 <= j < |q| ==> q[j] == q[0]
    ensures Exps(m, q, b) == Repeat(m.exp(q[0] / b), |q|)
  {
    var e := Exps(m, q, b);
    forall j | 0 <= j < |q| ensures e[j] == Repeat(m.exp(q[0] / b), |q|)[j] {
      ExpsAt(m, q, b, j);
      RepeatAt(m.exp(q[0] / b), |q|, j);
    }
  }

  /** Raising one outcome's shares strictly raises the cost (for b > 0). */
  lemma CostIncreasing(m: MathFns, q: seq<real>, b: real, i: int, x: real)
    requires m.Lawful() && b > 0.0 && 0 <= i < |q| && q[i] < x
    ensures Cost(m, q, b) < Cost(m, q[i := x], b)
  {
    ExpsPositive(m, q, b);
    PartitionIsSum(m, q, b);
    PartitionIsSum(m, q[i := x], b);
    ExpSumIncreasing(m, q, b, i, x);
    ScaledLnIncreasing(m, Partition(m, q, b), Partition(m, q[i := x], b), b);
  }

  lemma ExpSumIncreasing(m: MathFns, q: seq<real>, b: real, i: int, x: real)
    requires m.Lawful() && b > 0.0 && 0 <= i < |q| && q[i] < x
    ensures Sum(Exps(m, q, b)) < Sum(Exps(m, q[i := x], b))
  {
    var e := Exps(m, q, b);
    var v := m.exp(x / b);
    ExpsUpdate(m, q, b, i, x);
    ExpsAt(m, q, b, i);
    SumUpdate(e, i, v);
    DivLt(q[i], x, b);
  }

  lemma ScaledLnIncreasing(m: MathFns, s0: real, s1: real, b: real)
    requires m.Lawful() && b > 0.0 && 0.0 < s0 < s1
    ensures b * m.ln(s0) < b * m.ln(s1)
  {
    MulLtRight(m.ln(s0), m.ln(s1), b);
  }

  datatype BuyQuote = BuyQuote(costDelta: real, newQ: seq<real>)

  /** Cost of buying qty shares of one outcome, and the share vector afterwards. */
  function BuyCostDelta(m: MathFns, q: seq<real>, outcomeIndex: int, qty: real, b: real): (r: BuyQuote)
    requires b != 0.0 && 0 <= outcomeIndex < |q|
    ensures |r.newQ| == |q| && r.newQ[outcomeIndex] == q[outcomeIndex] + qty
    ensures forall j :: 0 <= j < |q| && j != outcomeIndex ==> r.newQ[j] == q[j]
    ensures r.costDelta == Cost(m, r.newQ, b) - Cost(m, q, b)
  {
    var newQ := q[outcomeIndex := q[outcomeIndex] + qty];
    BuyQuote(Cost(m, newQ, b) - Cost(m, q, b), newQ)
  }

  /** A purchase costs something exactly when it buys something: the sign of the cost is the sign of qty. */
  lemma CostDeltaSign(m: MathFns, q: seq<real>, outcomeIndex: int, qty: real, b: real)
    requires m.Lawful() && b > 0.0 && 0 <= outcomeIndex < |q|
    ensures var c := BuyCostDelta(m, q, outcomeIndex, qty, b).costDelta;
      (qty > 0.0 <==> c > 0.0) && (qty < 0.0 <==> c < 0.0) && (qty == 0.0 <==> c == 0.0)
  {
    var x := q[outcomeIndex] + qty;
    if qty > 0.0 {
      CostIncreasing(m, q, b, outcomeIndex, x);
    } else if qty < 0.0 {
      var q' := q[outcomeIndex := x];
      CostIncreasing(m, q', b, outcomeIndex, q[outcomeIndex]);
      assert q'[outcomeIndex := q[outcomeIndex]] == q;
    } else {
      assert q[outcomeIndex := x] == q;
    }
  }

  /** Slack allowed over the budget (1e-12). */
  const Tol: real := 0.000000000001

  /** The shares q after adding t steps of `step` to one outcome. */
  function Bump(q: seq<real>, outcomeIndex: int, step: real, t: nat): (r: seq<real>)
    requires 0 <= outcomeIndex < |q|
    ensures |r| == |q|
  {
    q[outcomeIndex := q[outcomeIndex] + step * t as real]
  }

  /** One more step costs what BuyCostDelta quotes at the current shares. */
  lemma SpentNext(m: MathFns, q: seq<real>, outcomeIndex: int, b: real, step: real, t: nat)
    requires b != 0.0 && 0 <= outcomeIndex < |q|
    ensures var quote := BuyCostDelta(m, Bump(q, outcomeIndex, step, t), outcomeIndex, step, b);
      quote.newQ == Bump(q, outcomeIndex, step, t + 1) &&
      Spent(m, q, outcomeIndex, b, step, t) + quote.costDelta == Spent(m, q, outcomeIndex, b, step, t + 1)
  {
    var c := Bump(q, outcomeIndex, step, t);
    var v := q[outcomeIndex] + step * (t + 1) as real;
    MulSucc(step, t);
    assert c[outcomeIndex] + step == v;
    assert c[outcomeIndex := v] == q[outcomeIndex := v];
  }

  lemma MulSucc(step: real, t: nat)
    ensures step * t as real + step == step * (t + 1) as real
  {
  }

  /** Cost of t steps of `step` shares of one outcome, measured from q. */
  function Spent(m: MathFns, q: seq<real>, outcomeIndex: int, b: real, step: real, t: nat): real
    requires b != 0.0 && 0 <= outcomeIndex < |q|
  {
    Cost(m, Bump(q, outcomeIndex, step, t), b) - Cost(m, q, b)
  }

  /** The first n steps each stay within budget (plus Tol). */
  ghost predicate Affordable(m: MathFns, q: seq<real>, outcomeIndex: int, b: real, step: real, budget: real, n: nat)
    requires b != 0.0 && 0 <= outcomeIndex < |q|
  {
    n == 0 || (Affordable(m, q, outcomeIndex, b, step, budget, n - 1) && Spent(m, q, outcomeIndex, b, step, n) <= budget + Tol)
  }

  lemma {:induction false} AffordableAt(m: MathFns, q: seq<real>, outcomeIndex: int, b: real, step: real, budget: real, n: nat, t: nat)
    requires b != 0.0 && 0 <= outcomeIndex < |q|
    requires Affordable(m, q, outcomeIndex, b, step, budget, n) && 1 <= t <= n
    ensures Spent(m, q, outcomeIndex, b, step, t) <= budget + Tol
  {
    if t < n {
      AffordableAt(m, q, outcomeIndex, b, step, budget, n - 1, t);
    }
  }

  /**
   * Largest multiple of `step` purchasable within budget (plus Tol), found by
   * adding one step at a time, for at most maxIter steps. `steps` counts the
   * accepted steps: every accepted prefix stays within budget and, unless the
   * iteration bound was reached, the next step would not.
   */
  method MaxQtyForBudget(m: MathFns, q: seq<real>, outcomeIndex: int, budget: real, b: real,
                         step: real := 0.1, maxIter: int := 10000)
    returns (qty: real, ghost steps: nat)
    requires b != 0.0 && 0 <= outcomeIndex < |q|
    ensures qty == step * steps as real
    ensures steps == 0 || steps <= maxIter
    ensures forall t: nat :: 1 <= t <= steps ==> Spent(m, q, outcomeIndex, b, step, t) <= budget + Tol
    ensures steps < maxIter ==> Spent(m, q, outcomeIndex, b, step, steps + 1) > budget + Tol
    ensures Spent(m, q, outcomeIndex, b, step, 1) > budget + Tol ==> qty == 0.0
  {
    qty := 0.0;
    var costUsed := 0.0;
    var cur := q;
    var k: nat := 0;
    assert Bump(q, outcomeIndex, step, 0) == q;
    while k < maxIter
      invariant k == 0 || k <= maxIter
      invariant cur == Bump(q, outcomeIndex, step, k)
      invariant costUsed == Spent(m, q, outcomeIndex, b, step, k)
      invariant qty == step * k as real
      invariant Affordable(m, q, outcomeIndex, b, step, budget, k)
    {
      var quote := BuyCostDelta(m, cur, outcomeIndex, step, b);
      SpentNext(m, q, outcomeIndex, b, step, k);
      MulSucc(step, k);
      if costUsed + quote.costDelta > budget + Tol {
        break;
      }
      costUsed := costUsed + quote.costDelta;
      qty := qty + step;
      cur := quote.newQ;
      k := k + 1;
    }
    steps := k;
    forall t: nat | 1 <= t <= steps
      ensures Spent(m, q, outcomeIndex, b, step, t) <= budget + Tol
    {
      AffordableAt(m, q, outcomeIndex, b, step, budget, steps, t);
    }
  }
}
