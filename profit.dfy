/** The fee, net stake, payout and profit shown before a bet is placed. */
module Profit {

  datatype Breakdown = Breakdown(fee: int, netAmount: real, potentialPayout: int, profit: real)

  /**
   * The fee is the floor of amount * feeRate, the payout the floor of the
   * net stake times the odds, and the profit is measured against the gross
   * amount.
   */
  function Calculate(amount: real, odds: real, feeRate: real): (r: Breakdown)
    ensures r.fee as real <= amount * feeRate < r.fee as real + 1.0
    ensures r.fee as real + r.netAmount == amount
    ensures r.potentialPayout as real <= r.netAmount * odds < r.potentialPayout as real + 1.0
    ensures r.profit == r.potentialPayout as real - amount
  {
    var fee := (amount * feeRate).Floor;
    var netAmount := amount - fee as real;
    var potentialPayout := (netAmount * odds).Floor;
    Breakdown(fee, netAmount, potentialPayout, potentialPayout as real - amount)
  }

  /** A non-negative stake and a rate in [0, 1] give a fee in [0, amount]. */
  lemma FeeWithinAmount(amount: real, odds: real, feeRate: real)
    requires amount >= 0.0 && 0.0 <= feeRate <= 1.0
    ensures var r := Calculate(amount, odds, feeRate);
      0 <= r.fee && r.fee as real <= amount && 0.0 <= r.netAmount <= amount
  {
    var r := Calculate(amount, odds, feeRate);
    assert 0.0 <= amount * feeRate <= amount by {
      assert amount * feeRate <= amount * 1.0;
    }
  }

  /** With no fee and even odds a whole-number stake breaks even. */
  lemma EvenOddsNoFeeBreaksEven(points: nat)
    ensures Calculate(points as real, 1.0, 0.0).profit == 0.0
  {
  }

  /** The fee only lowers the profit: it never exceeds what the odds pay on the gross stake. */
  lemma ProfitAtMostGrossReturn(amount: real, odds: real, feeRate: real)
    requires amount >= 0.0 && feeRate >= 0.0 && odds >= 0.0
    ensures Calculate(amount, odds, feeRate).profit <= amount * odds - amount
  {
    var r := Calculate(amount, odds, feeRate);
    assert amount * feeRate >= 0.0;
    assert r.netAmount <= amount;
    assert r.netAmount * odds <= amount * odds;
  }
}
