/**
 * Constant-product market maker for a binary Yes/No market: the pools
 * satisfy yesPool * noPool == k across a bet.
 */
module Amm {
  import opened Common

  datatype AmmState = AmmState(yesPool: real, noPool: real)

  /** The invariant k of the pools. */
  function Product(state: AmmState): real {
    state.yesPool * state.noPool
  }

  datatype AmmPrices = AmmPrices(yesPrice: real, noPrice: real)

  /** priceImpact is None where the source divides by a zero initial price. */
  datatype BetResult = BetResult(amountOut: real, price: real, priceImpact: Option<real>, newPools: AmmState)

  /** Price of each outcome: its share of the two pools, 0.5/0.5 when the pools total zero. */
  function GetAmmPrices(state: AmmState): (r: AmmPrices)
    ensures r.yesPrice + r.noPrice == 1.0
  {
    var total := state.yesPool + state.noPool;
    if total == 0.0 then AmmPrices(0.5, 0.5)
    else AmmPrices(state.yesPool / total, state.noPool / total)
  }

  /** Empty pools price both sides at one half. */
  lemma EmptyPoolsEvenPrices(state: AmmState)
    requires state.yesPool + state.noPool == 0.0
    ensures GetAmmPrices(state) == AmmPrices(0.5, 0.5)
  {
  }

  /** Each price is its pool's share of the total. */
  lemma AmmPricesAreShares(state: AmmState)
    ensures var r, t := GetAmmPrices(state), state.yesPool + state.noPool;
      t != 0.0 ==> r.yesPrice * t == state.yesPool && r.noPrice * t == state.noPool
  {
    var t := state.yesPool + state.noPool;
    if t != 0.0 {
      DivMulCancel(state.yesPool, t);
      DivMulCancel(state.noPool, t);
    }
  }

  /** With non-negative pools each price lies in [0, 1]. */
  lemma AmmPricesInUnitInterval(state: AmmState)
    requires state.yesPool >= 0.0 && state.noPool >= 0.0
    ensures var r := GetAmmPrices(state); 0.0 <= r.yesPrice <= 1.0 && 0.0 <= r.noPrice <= 1.0
  {
    var t := state.yesPool + state.noPool;
    if t != 0.0 {
      AmmPricesAreShares(state);
      var r := GetAmmPrices(state);
      assert r.yesPrice * t >= 0.0 && r.noPrice * t >= 0.0;
    }
  }

  /** The price the bet side reads: Yes price for a Yes bet, No price otherwise. */
  function SidePrice(state: AmmState, isYes: bool): real {
    var p := GetAmmPrices(state);
    if isYes then p.yesPrice else p.noPrice
  }

  /** The pool a bet adds its points to, after the bet. */
  function BoughtPool(state: AmmState, points: real, isYes: bool): real {
    if isYes then state.yesPool + points else state.noPool + points
  }

  /** Relative move of a price: |final - initial| / initial. */
  function PriceImpact(initialPrice: real, finalPrice: real): (r: real)
    requires initialPrice != 0.0
    ensures r * initialPrice == Abs(finalPrice - initialPrice)
    ensures initialPrice > 0.0 ==> r >= 0.0
  {
    var move := Abs(finalPrice - initialPrice);
    DivMulCancel(move, initialPrice);
    if initialPrice > 0.0 then
      NonNegativeQuotient(move, initialPrice);
      move / initialPrice
    else
      move / initialPrice
  }

  /**
   * Quote for betting `points` on one side. The source divides k by the
   * bought pool, so when that pool is zero every field but the price is
   * non-finite and the model returns None. It also divides by the initial
   * side price; when only that is zero, the pools, amount and price are
   * finite and just the price impact is missing.
   * The slippage bound is accepted and ignored, as in the source.
   */
  function CalculateAmmBet(state: AmmState, points: real, isYes: bool, slippage: real := 0.005): (r: Option<BetResult>)
    ensures r.None? <==> BoughtPool(state, points, isYes) == 0.0
    ensures r.Some? && isYes ==> r.value.newPools.yesPool == state.yesPool + points
    ensures r.Some? && !isYes ==> r.value.newPools.noPool == state.noPool + points
    ensures r.Some? && isYes ==>
      r.value.newPools.noPool == Product(state) / (state.yesPool + points)
    ensures r.Some? && !isYes ==>
      r.value.newPools.yesPool == Product(state) / (state.noPool + points)
    ensures r.Some? && isYes ==> r.value.amountOut == state.noPool - r.value.newPools.noPool
    ensures r.Some? && !isYes ==> r.value.amountOut == state.yesPool - r.value.newPools.yesPool
    ensures r.Some? ==> r.value.price == SidePrice(r.value.newPools, isYes)
    ensures r.Some? ==> (r.value.priceImpact.None? <==> SidePrice(state, isYes) == 0.0)
    ensures r.Some? && SidePrice(state, isYes) != 0.0 ==>
      r.value.priceImpact == Some(PriceImpact(SidePrice(state, isYes), r.value.price))
  {
    var k := Product(state);
    var bought := BoughtPool(state, points, isYes);
    var initialPrice := SidePrice(state, isYes);
    if bought == 0.0 then None
    else
      var other := k / bought;
      var newPools := if isYes then AmmState(bought, other) else AmmState(other, bought);
      var amountOut := if isYes then state.noPool - other else state.yesPool - other;
      var finalPrice := SidePrice(newPools, isYes);
      var impact := if initialPrice == 0.0 then None else Some(PriceImpact(initialPrice, finalPrice));
      Some(BetResult(amountOut, finalPrice, impact, newPools))
  }

  /** A bet keeps the product of the pools: newYesPool * newNoPool == yesPool * noPool. */
  lemma BetPreservesProduct(state: AmmState, points: real, isYes: bool)
    requires CalculateAmmBet(state, points, isYes).Some?
    ensures Product(CalculateAmmBet(state, points, isYes).value.newPools) == Product(state)
  {
    SplitKeepsProduct(Product(state), BoughtPool(state, points, isYes), isYes,
      CalculateAmmBet(state, points, isYes).value.newPools);
  }

  /** Pools (d, k / d) or (k / d, d) multiply to k. */
  lemma SplitKeepsProduct(k: real, d: real, isYes: bool, p: AmmState)
    requires d != 0.0
    requires p == if isYes then AmmState(d, k / d) else AmmState(k / d, d)
    ensures Product(p) == k
  {
    DivMulCancel(k, d);
  }

  /** The quote does not depend on the slippage argument. */
  lemma SlippageIgnored(state: AmmState, points: real, isYes: bool, s1: real, s2: real)
    ensures CalculateAmmBet(state, points, isYes, s1) == CalculateAmmBet(state, points, isYes, s2)
  {
  }

  /** With seeded pools a positive bet is always quoted, price impact included. */
  lemma SeededBetQuoted(state: AmmState, points: real, isYes: bool)
    requires state.yesPool > 0.0 && state.noPool > 0.0 && points > 0.0
    ensures CalculateAmmBet(state, points, isYes).Some?
    ensures CalculateAmmBet(state, points, isYes).value.priceImpact.Some?
  {
    AmmPricesAreShares(state);
    assert SidePrice(state, isYes) * (state.yesPool + state.noPool) == (if isYes then state.yesPool else state.noPool);
  }

  /** An empty Yes pool still quotes: the bet drains the No pool and only the impact is missing. */
  lemma EmptySideQuoted()
    ensures CalculateAmmBet(AmmState(0.0, 10.0), 5.0, true) == Some(BetResult(10.0, 1.0, None, AmmState(5.0, 0.0)))
  {
  }

  /** With seeded pools, a positive bet pays out a positive amount below the opposing pool. */
  lemma BetAmountOutBounds(state: AmmState, points: real, isYes: bool)
    requires state.yesPool > 0.0 && state.noPool > 0.0 && points > 0.0
    ensures CalculateAmmBet(state, points, isYes).Some?
    ensures var r := CalculateAmmBet(state, points, isYes).value;
      0.0 < r.amountOut < (if isYes then state.noPool else state.yesPool)
  {
    SeededBetQuoted(state, points, isYes);
    AmountOutBelowOpposing(state, points, isYes);
  }

  lemma AmountOutBelowOpposing(state: AmmState, points: real, isYes: bool)
    requires state.yesPool > 0.0 && state.noPool > 0.0 && points > 0.0
    requires CalculateAmmBet(state, points, isYes).Some?
    ensures var r := CalculateAmmBet(state, points, isYes).value;
      0.0 < r.amountOut < (if isYes then state.noPool else state.yesPool)
  {
    if isYes { YesAmountOut(state, points); } else { NoAmountOut(state, points); }
  }

  lemma YesAmountOut(state: AmmState, points: real)
    requires state.yesPool > 0.0 && state.noPool > 0.0 && points > 0.0
    requires CalculateAmmBet(state, points, true).Some?
    ensures 0.0 < CalculateAmmBet(state, points, true).value.amountOut < state.noPool
  {
    var y, n := state.yesPool, state.noPool;
    var r := CalculateAmmBet(state, points, true).value;
    var o := (y * n) / (y + points);
    assert r.newPools.noPool == o;
    assert r.amountOut == n - o;
    QuotientBelow(y, n, points);
  }

  lemma NoAmountOut(state: AmmState, points: real)
    requires state.yesPool > 0.0 && state.noPool > 0.0 && points > 0.0
    requires CalculateAmmBet(state, points, false).Some?
    ensures 0.0 < CalculateAmmBet(state, points, false).value.amountOut < state.yesPool
  {
    var y, n := state.yesPool, state.noPool;
    var r := CalculateAmmBet(state, points, false).value;
    var o := (y * n) / (n + points);
    assert r.newPools.yesPool == o;
    assert r.amountOut == y - o;
    assert y * n == n * y;
    QuotientBelow(n, y, points);
  }

  /** 0 < x*c/(x+p) < c for positive x, c, p. */
  lemma QuotientBelow(x: real, c: real, p: real)
    requires x > 0.0 && c > 0.0 && p > 0.0
    ensures 0.0 < (x * c) / (x + p) < c
  {
    var d := x + p;
    var v := (x * c) / d;
    DivMulCancel(x * c, d);
    MulPositive(x, c);
    PositiveFactor(v, d);
    MulLtRight(x, d, c);
    assert (c - v) * d == c * d - x * c;
    PositiveFactor(c - v, d);
  }

  /** Yes price in terms of the Yes pool and the product k: Y^2 / (Y^2 + k). */
  lemma YesPriceFromProduct(y: real, n: real)
    requires y > 0.0 && n > 0.0
    ensures GetAmmPrices(AmmState(y, n)).yesPrice == (y * y) / (y * y + y * n)
  {
    DivScale(y, y + n, y);
    assert y * (y + n) == y * y + y * n;
  }

  lemma SquareLt(y1: real, y2: real)
    requires 0.0 < y1 < y2
    ensures y1 * y1 < y2 * y2
  {
    MulLtRight(y1, y2, y1);
    assert y1 * y1 < y2 * y1;
    MulLtRight(y1, y2, y2);
    assert y2 * y1 == y1 * y2;
  }

  /** a/(a+k) is strictly increasing in a >= 0 when k > 0. */
  lemma ShareIncreasing(a: real, b: real, k: real)
    requires 0.0 <= a < b && k > 0.0
    ensures a / (a + k) < b / (b + k)
  {
    MulLtRight(a, b, k);
    assert a * (b + k) == a * b + a * k;
    assert b * (a + k) == a * b + b * k;
    FracLt(a, a + k, b, b + k);
  }

  /** Y^2/(Y^2+k) is strictly increasing in Y > 0 when k > 0. */
  lemma SquareShareIncreasing(y1: real, y2: real, k: real)
    requires 0.0 < y1 < y2 && k > 0.0
    ensures (y1 * y1) / (y1 * y1 + k) < (y2 * y2) / (y2 * y2 + k)
  {
    SquareLt(y1, y2);
    ShareIncreasing(y1 * y1, y2 * y2, k);
  }

  /** A positive bet on a side strictly raises that side's price, and `price` is that new price. */
  lemma BetRaisesPrice(state: AmmState, points: real, isYes: bool)
    requires state.yesPool > 0.0 && state.noPool > 0.0 && points > 0.0
    ensures CalculateAmmBet(state, points, isYes).Some?
    ensures CalculateAmmBet(state, points, isYes).value.price > SidePrice(state, isYes)
  {
    var y, n := state.yesPool, state.noPool;
    MulPositive(y, n);
    BetAmountOutBounds(state, points, isYes);
    BetPreservesProduct(state, points, isYes);
    var r := CalculateAmmBet(state, points, isYes).value;
    var y2, n2 := r.newPools.yesPool, r.newPools.noPool;
    assert y2 * n2 == y * n by { assert Product(r.newPools) == Product(state); }
    if isYes {
      assert y2 == y + points;
      assert n2 == n - r.amountOut;
      assert r.price == GetAmmPrices(AmmState(y2, n2)).yesPrice;
      YesPriceFromProduct(y, n);
      YesPriceFromProduct(y2, n2);
      SquareShareIncreasing(y, y2, y * n);
    } else {
      assert n2 == n + points;
      assert y2 == y - r.amountOut;
      assert r.price == GetAmmPrices(AmmState(y2, n2)).noPrice;
      assert n2 * y2 == n * y;
      YesPriceFromProduct(n, y);
      YesPriceFromProduct(n2, y2);
      SquareShareIncreasing(n, n2, n * y);
      SwappedPrices(y, n);
      SwappedPrices(y2, n2);
    }
  }

  /** The No price of (y, n) is the Yes price of (n, y). */
  lemma SwappedPrices(y: real, n: real)
    requires y > 0.0 && n > 0.0
    ensures GetAmmPrices(AmmState(y, n)).noPrice == GetAmmPrices(AmmState(n, y)).yesPrice
  {
    assert y + n == n + y;
  }
}
