# Prediction-market core in Dafny

This project models the core of a play-money prediction market. Users trade
outcome shares of a market with virtual points. An administrator later
resolves the market, and that resolution pays out holdings and updates each
forecaster's reputation. The model covers these parts:

- **Pricing mechanisms**:
  - a constant-product market maker for Yes/No markets (`Amm`);
  - parimutuel odds from pooled stakes (`Parimutuel`);
  - the logarithmic market scoring rule, LMSR (`Lmsr`), with its cost function, prices, buy quote and the stepping search for the largest affordable quantity.
- **Reputation** (`Reputation`):
  - the Brier score of a forecast;
  - the reputation change derived from it;
  - the running average of ratings.
- **Compliance guards** (`Compliance`):
  - the topic denylist;
  - the always-true purchase-route guard;
  - the flat daily earn limit;
  - the e-mail based eligibility check.
- **The profit preview** shown before a bet (`Profit`).
- **The two API handlers**:
  - `Trade`: the trade endpoint (authenticate, create the caller's row, quote, check the daily limit and the balance, commit);
  - `Resolve`: the resolve endpoint (admin key, mark resolved, pay holdings, score every position).

The database both handlers work on is `Tables.Db`: users and markets as maps, and positions, trades, resolutions, reputation records and events as sequences in insertion order. The handlers change it in place through `Tables.Store`, a class with one field per table.

Both handlers are methods on `Store`, proved equal to a pure specification function on `Db`:

- `HandleTrade` is proved against `HandleTradeSpec`.
- `HandleResolve` is proved against `HandleResolveSpec`.

The properties are lemmas about those functions. Their loops are proved with loop invariants against recursive functions that mirror the loop: padding holdings, paying positions, scoring positions, Brier summation, and the budget search.

All numbers are `real`, because the source uses JavaScript numbers. The exponential and logarithm are parameters, `Lmsr.MathFns`. They are constrained by the laws the proofs use:

- `exp` is positive and strictly increasing;
- `ln` is strictly increasing on the positives;
- where needed, `ln(exp(x)) == x`.

`Lmsr.RationalIsLawful` exhibits a concrete pair meeting all of these laws, so the laws are consistent.

Where the code and its design description disagree, the model follows the code:

- The design asks for an idempotent settlement guarded by an existing resolution record. The resolve handler has no such guard, and `Resolve.ResolveTwicePaysTwice` proves that a second call pays every position again.
- The design's trade steps include these, none of which the trade handler does, so the model leaves them out as well:
  - an open-status check;
  - a slippage bound;
  - a compliance check;
  - all-or-nothing rejection. The handler creates the caller's row before it can reject the request.

## Model

| member | source | states |
|---|---|---|
| Amm.EmptyPoolsEvenPrices | lib/amm.ts:19-22 | pools totalling zero price both sides at 0.5 |
| Amm.GetAmmPrices | lib/amm.ts:19-30 | the two prices always sum to 1, in both branches |
| Amm.AmmPricesAreShares | lib/amm.ts:19-30 | for a non-zero total, each price times the total is its own pool |
| Amm.AmmPricesInUnitInterval | lib/amm.ts:19-30 | with non-negative pools both prices lie in [0, 1] |
| Amm.PriceImpact | lib/amm.ts:66 | the impact times the initial price is the absolute price move; it is non-negative for a positive initial price |
| Amm.CalculateAmmBet | lib/amm.ts:37-74 | no quote exactly when the bought pool ends at 0 (the source divides k by it); otherwise the bought pool gains the points, the other pool becomes k over it, amountOut is what the other pool loses and price is the new side price; priceImpact is missing exactly when the initial side price is 0 (the source divides by it) and is otherwise measured from that price |
| Amm.BetPreservesProduct | lib/amm.ts:44-61 | every quoted bet keeps yesPool * noPool unchanged |
| Amm.SlippageIgnored | lib/amm.ts:37-42 | the quote does not depend on the slippage argument |
| Amm.SeededBetQuoted | lib/amm.ts:37-74 | with positive pools a positive bet is always quoted, with a price impact |
| Amm.EmptySideQuoted | lib/amm.ts:55-66 | an empty Yes pool [0, 10] still quotes a Yes bet of 5: amountOut 10, price 1, new pools [5, 0]; only the price impact is missing |
| Amm.BetAmountOutBounds | lib/amm.ts:55-61 | with positive pools a positive bet pays out a positive amount strictly below the opposite pool |
| Amm.BetRaisesPrice | lib/amm.ts:64-65 | with positive pools a positive bet strictly raises the price of the side bought |
| Parimutuel.Sanitize | lib/parimutuel.ts:5 | same length, non-negative entries kept and negative ones replaced by 0 |
| Parimutuel.ComputeParimutuelOdds | lib/parimutuel.ts:3-21 | both vectors have max(1, n) entries |
| Parimutuel.NoLiquidityIff | lib/parimutuel.ts:5-7 | the uniform branch is taken exactly when no pool entry is positive |
| Parimutuel.NoLiquidityUniform | lib/parimutuel.ts:7-13 | with no liquidity every probability is 1/n and every payout 1/(1/n + 1e-6), with n = max(1, length) |
| Parimutuel.EmptyPoolSingleOutcome | lib/parimutuel.ts:9-10 | an empty pool yields the single probability 1 |
| Parimutuel.LiquidProbabilities | lib/parimutuel.ts:14 | with liquidity, probability i is (s_i + 1e-6) / (sum + 1e-6 * n) |
| Parimutuel.ProbabilitiesSumToOne | lib/parimutuel.ts:3-21 | the probabilities always sum to 1 |
| Parimutuel.ProbabilitiesInRange | lib/parimutuel.ts:14 | with liquidity each probability is in (0, 1], and strictly below 1 when there are two or more outcomes |
| Parimutuel.ProbabilitiesOrdered | lib/parimutuel.ts:14 | probabilities are ordered exactly as the sanitized stakes are |
| Parimutuel.PayoutPerPoint | lib/parimutuel.ts:16-19 | a staked outcome pays sum / stake, at least 1; an unstaked one pays sum / 1e-6 |
| Parimutuel.ThreeOutcomeExample | lib/parimutuel.ts:24-26 | the pool [10, 20, 5] pays [3.5, 1.75, 7] per point |
| Lmsr.RationalIsLawful | lib/lmsr.ts:8-9 | a concrete exp/ln pair satisfies every law the model assumes of Math.exp and Math.log |
| Lmsr.Cost | lib/lmsr.ts:7-10 | with ln inverting exp, a one-outcome market costs exactly its outstanding shares |
| Lmsr.PartitionIsSum | lib/lmsr.ts:8 | the cost's reduce over exp(q_i / b) equals the sum of the price numerators |
| Lmsr.GetPrices | lib/lmsr.ts:12-16 | one price per outcome |
| Lmsr.PriceAt | lib/lmsr.ts:12-16 | price i is exp(q_i / b) divided by the positive sum of all exp(q_j / b) |
| Lmsr.PricesAreProbabilities | lib/lmsr.ts:12-16 | every price is positive and the prices sum to 1 |
| Lmsr.PricesOrdered | lib/lmsr.ts:12-16 | for b > 0, price i is below price j exactly when q_i is below q_j |
| Lmsr.EqualSharesUniformPrices | lib/lmsr.ts:12-16 | equal outstanding shares give every outcome price 1/n |
| Lmsr.CostIncreasing | lib/lmsr.ts:7-10 | for b > 0 the cost strictly increases when any q_i increases |
| Lmsr.BuyCostDelta | lib/lmsr.ts:18-24 | newQ is q with qty added at the outcome and nothing else changed; costDelta is cost(newQ) - cost(q) |
| Lmsr.CostDeltaSign | lib/lmsr.ts:18-24 | for b > 0, a buy costs a positive amount, a sale a negative one and qty 0 nothing, each an if-and-only-if |
| Lmsr.SpentNext | lib/lmsr.ts:31-36 | one more step quotes against the shares so far and adds its delta to the cost used |
| Lmsr.MaxQtyForBudget | lib/lmsr.ts:27-39 | qty is step times the number of accepted steps, at most maxIter; every accepted prefix costs at most budget + 1e-12; unless the iteration cap stopped it, the next step would exceed that; a first step over budget gives 0 |
| Reputation.BrierScore | lib/reputation.ts:5-14 | the loop computes the sum over i of (p_i - [i == outcome])^2 |
| Reputation.Brier | lib/reputation.ts:5-14 | the score is never negative |
| Reputation.BrierOutOfRange | lib/reputation.ts:9-11 | an outcome index outside the vector scores the plain sum of squares |
| Reputation.BrierExpanded | lib/reputation.ts:5-14 | for an index in range the score is the sum of squares - 2 p_k + 1 |
| Reputation.BrierAtMostTwo | lib/reputation.ts:5-14 | a probability vector scored at an index in range scores within [0, 2] |
| Reputation.PerfectForecast | lib/reputation.ts:5-14 | the indicator vector of the outcome scores 0 |
| Reputation.BrierExamples | lib/reputation.ts:5-14 | [1, 0], [0.5, 0.5] and [0, 1] score 0, 0.5 and 2 at outcome 0 |
| Reputation.ReputationDeltaFromBrier | lib/reputation.ts:16-20 | the delta always lies in [-5, 5] |
| Reputation.DeltaLinear | lib/reputation.ts:16-20 | over scores in [0, 2] the delta is exactly 5 - 5 * brier |
| Reputation.DeltaExtremes | lib/reputation.ts:16-20 | score 0 gives +5 and any score of 2 or more gives -5 |
| Reputation.DeltaNonIncreasing | lib/reputation.ts:16-20 | a worse (larger) score never gives a larger delta |
| Reputation.DeltaIgnoresOutcomeCount | lib/reputation.ts:16 | the outcome-count argument has no effect |
| Reputation.UpdateAverageReputation | lib/reputation.ts:22-26 | the count grows by one and the new mean times the new count is the old total plus the delta |
| Reputation.FirstRatingIsDelta | lib/reputation.ts:22-26 | from a zero count the new mean is the delta itself |
| Reputation.AverageStaysInBounds | lib/reputation.ts:22-26 | a mean and a delta inside [lo, hi] give a new mean inside [lo, hi] |
| Compliance.LowerIsLower | lib/compliance.ts:16 | lower-casing yields a lower-case string and leaves lower-case strings alone |
| Compliance.LowerIdempotent | lib/compliance.ts:16 | lower-casing twice is lower-casing once |
| Compliance.MissingCategoryAllowed | lib/compliance.ts:15 | an absent or empty category is allowed |
| Compliance.IsTopicAllowed | lib/compliance.ts:14-18 | an absent category is allowed; a present one exactly when its lower-cased form is not on the denylist |
| Compliance.CaseInsensitive | lib/compliance.ts:16-17 | a category and its lower-cased form get the same answer |
| Compliance.ListedTopicRejected | lib/compliance.ts:3-18 | any spelling that lower-cases to a denylisted topic is rejected |
| Compliance.Examples | lib/compliance.ts:3-18 | "Politics" and "SPORTS_BETTING" are rejected and "weather" is allowed |
| Compliance.EnforceNoPurchaseRoutes | lib/compliance.ts:20-24 | the guard always passes |
| Compliance.DailyEarnLimit | lib/compliance.ts:26-29 | the limit is 500 points per day |
| Compliance.DailyEarnLimitUniform | lib/compliance.ts:26-29 | every user gets the same limit |
| Compliance.IsKycEligible | lib/compliance.ts:31-34 | eligible exactly when a user is present with a non-empty email |
| Profit.Calculate | components/ProfitCalculator.tsx:10-13 | the fee is the floor of amount * feeRate, fee plus net stake is the amount, the payout is the floor of net stake * odds, and profit is payout minus the gross amount |
| Profit.FeeWithinAmount | components/ProfitCalculator.tsx:10-11 | for a non-negative amount and a rate in [0, 1], the fee and the net stake both lie in [0, amount] |
| Profit.EvenOddsNoFeeBreaksEven | components/ProfitCalculator.tsx:10-13 | a whole-point stake at odds 1 with no fee has profit 0 |
| Profit.ProfitAtMostGrossReturn | components/ProfitCalculator.tsx:10-13 | profit never exceeds amount * odds - amount for non-negative inputs |
| Tables.FindPosition | pages/api/trade.ts:49 | finds the first position row of the user in the market, or reports that none exists |
| Trade.NewUser | pages/api/trade.ts:22-24 | a first-time caller gets username "user_" plus the first six characters of the id, the initial balance and no reputation |
| Trade.WithUser | pages/api/trade.ts:20-25 | the caller's row is added only if it is missing; every other row is kept |
| Trade.PadHoldings | pages/api/trade.ts:52 | the loop pads the holdings with zeros up to the number of outcomes and keeps existing entries |
| Trade.UpdatedHoldingsAt | pages/api/trade.ts:50-53 | each new holding is the old one (0 when missing) plus qty at the traded outcome |
| Trade.Quote | pages/api/trade.ts:34-37 | the quote has one share entry per outcome of the market |
| Trade.AsWrittenNeverTrades | pages/api/trade.ts:27-30 | as written no request ever trades; an authenticated POST fails at the limit check after the caller's row is created, with no other table touched |
| Trade.TradeSucceedsIff | pages/api/trade.ts:9-39 | with the limit check moved after the quote, a trade commits exactly when the request is a POST, the caller is verified, the market exists, the day's spend plus the cost is at most 500, and the balance covers the cost |
| Trade.HandleTradeSpec | pages/api/trade.ts:8-68 | an authenticated POST adds the caller's id to the user ids if missing and any other request keeps them; the market ids are kept and the resolution and reputation tables are never touched |
| Trade.HandleTradeAsWritten | pages/api/trade.ts:8-68 | exactly the authenticated POSTs end in the ReferenceError, and only they add the caller's id to the user ids |
| Trade.RejectionWritesNothing | pages/api/trade.ts:9-39 | a 405 or 401 writes nothing; any later rejection writes only the caller's row, created if it was missing |
| Trade.TradeAppendsOneRow | pages/api/trade.ts:41-65 | a trade appends exactly one trade row and one trade event carrying the LMSR cost delta, and leaves resolutions and reputation records alone |
| Trade.TradeDebitsCaller | pages/api/trade.ts:39-63 | the caller is debited exactly the cost, the balance stays non-negative, the response reports it, and no other user changes |
| Trade.TradeMovesMarket | pages/api/trade.ts:37-60 | only the traded market's share vector changes, and only at the traded outcome, by qty |
| Trade.TradeUpdatesPosition | pages/api/trade.ts:49-58 | the caller's position row is updated or inserted with the padded, incremented holdings, which are also returned |
| Trade.WithHoldingsFound | pages/api/trade.ts:54-58 | after the update or insert, looking the position up again finds the new holdings |
| Trade.WithHoldingsUnique | pages/api/trade.ts:54-58 | position rows stay unique per user and market |
| Trade.TradePreservesValid | pages/api/trade.ts:20-65 | the handler keeps positions unique and every market's b positive |
| Trade.SaleCreditsCaller | pages/api/trade.ts:37-63 | a committed negative qty raises the caller's balance |
| Trade.HandleTrade | pages/api/trade.ts:8-68 | the handler writes the tables exactly as the corrected specification says and keeps the table invariant |
| Trade.CommitTrade | pages/api/trade.ts:41-65 | the committing writes produce exactly the specified new tables and response |
| Resolve.MarketPositions | pages/api/resolve.ts:17 | every selected row belongs to the market and every row of the market is selected |
| Resolve.MatchIndices | pages/api/resolve.ts:17 | the indices point at rows of the market |
| Resolve.MatchIndicesAscend | pages/api/resolve.ts:17 | those indices strictly ascend |
| Resolve.MatchIndicesComplete | pages/api/resolve.ts:17 | every row of the market has its index among them |
| Resolve.MarketPositionsAreFilter | pages/api/resolve.ts:17 | the selection is the order-preserving filter: the k-th selected row is the row at the k-th matching index, and there are as many as matching indices |
| Resolve.Records | pages/api/resolve.ts:32-36 | one reputation record per position |
| Resolve.PayAllEffect | pages/api/resolve.ts:18-26 | the payout loop keeps the set of users and adds to each user's balance the winning holding of each of their positions, changing nothing else |
| Resolve.RateAllEffect | pages/api/resolve.ts:37-41 | the scoring loop keeps the set of users and their balances, and adds one rating per position to each user's count |
| Resolve.RateAllMean | pages/api/resolve.ts:37-41 | the scoring loop adds one delta per position to each user's mean times count |
| Resolve.ScaledIsProduct | pages/api/resolve.ts:37-41 | n deltas added up are n * delta |
| Resolve.RateAllBounded | pages/api/resolve.ts:37-41 | ratings in [-5, 5] stay in [-5, 5] |
| Resolve.NoPositionNoChange | pages/api/resolve.ts:17-42 | a user with no position in the market is neither paid nor rated |
| Resolve.RejectionWritesNothing | pages/api/resolve.ts:6-12 | a non-POST request, a wrong admin key or an unknown market writes nothing; otherwise the market is resolved |
| Resolve.ResolutionRecorded | pages/api/resolve.ts:14-44 | resolving marks the market resolved and appends one resolution and one event; positions and trades are untouched |
| Resolve.UsersPaidAndRated | pages/api/resolve.ts:17-42 | each user is credited the sum of their winning holdings in the market and rated once per position, keeping their username: the count grows by the number of positions and mean * count by that many deltas; users without a position are unchanged |
| Resolve.RatingsStayBounded | pages/api/resolve.ts:28-42 | a rating in [-5, 5] stays in [-5, 5] after resolution |
| Resolve.OneRecordPerPosition | pages/api/resolve.ts:28-36 | one record per position is appended after the existing ones; all share the market's Brier score (non-negative, at most 2 for a winning index in range) and a delta in [-5, 5] |
| Resolve.ResolveTwicePaysTwice | pages/api/resolve.ts:11-26 | with no already-resolved guard, a second resolution pays every position again and appends a second set of records |
| Resolve.HandleResolveSpec | pages/api/resolve.ts:5-47 | the set of users and of markets is kept, and positions and trades are untouched |
| Resolve.ResolvePreservesValid | pages/api/resolve.ts:5-47 | resolution keeps every market's b positive and position rows unique |
| Resolve.HandleResolve | pages/api/resolve.ts:5-47 | the handler writes the tables exactly as the specification says and keeps the table invariant |
| Resolve.PayoutLoop | pages/api/resolve.ts:18-26 | the payout loop's writes are exactly the specified crediting of every position |
| Resolve.ScoringLoop | pages/api/resolve.ts:32-42 | the scoring loop's writes are exactly the specified records and rating updates |

## Left out

- I/O: the database client, HTTP status codes and JSON bodies are not modelled.
  - Each handler's answer is a datatype of outcomes.
  - The tables are the in-memory `Tables.Db`.
- Authentication: token verification is an input `Trade.Auth`, and the admin-key comparison is the boolean `Resolve.ResolveRequest.adminKeyMatches`.
- The clock: the trailing 24-hour window of trades is given as the parameter `recentCosts`, the costs of the caller's trades over the last day.
- The initial balance of a newly inserted user row is a database default; here it is the parameter `initialBalance`.
- The `updated_at` and `created_at` timestamps are not stored.
- Users are keyed by their authentication id. The source's separate `id` and `supabase_user_id` columns are merged.
- Concurrency: each handler runs alone. The model does not cover the races between separate queries, such as two trades both passing the daily limit.
- Floating point: numbers are exact reals, so overflow, NaN, infinity and rounding are not modelled.
  - So `isFinite` in the parimutuel sanitizer has nothing to reject.
  - Math.exp and Math.log are linked only by their laws.
- Number() coercions and the `|| 0` defaults on database fields are not modelled; the fields simply have their types.
- String(...) coercion of the admin key is not modelled.
- Trade.HandleTradeSpec: requires the outcome index to be in range for an existing market. The excluded cases behave in two ways in the source, and neither is modelled:
  - An integer index at or beyond the number of outcomes makes JavaScript extend the share vector and the holdings array.
  - A negative or fractional index writes a property outside the array. Length, `slice`, `reduce` and JSON all ignore that property, so the cost delta is 0 and neither q nor the stored holdings change. The trade row with cost 0, the position and balance writes and the trade event are still recorded, so the request becomes a free no-op trade. The index is an `int` here, so fractional values cannot even be written.
- Trade.HandleTrade: requires every market's b to be positive (the table invariant). b is the LMSR liquidity parameter, which the scoring rule assumes positive; the source never sets or checks it.
  - With b = 0 the source's cost is not a finite number.
  - With b < 0 the source would compute finite costs and prices, but the rule is then degenerate: the more shares an outcome has, the lower its price. The model treats that as a configuration the source would accept but that is outside the market's design. The proofs of Lmsr.CostDeltaSign, Lmsr.PricesOrdered and Trade.SaleCreditsCaller use b > 0.
- Resolve.HandleResolveSpec: requires every market's b to be positive, for the same reasons.
- Reputation.ReputationDeltaFromBrier: does not model the rounding to four decimals (`toFixed(4)`), because numbers are exact reals; the delta is the unrounded value.
- Compliance.Lower: lower-cases ASCII letters only; JavaScript's `toLowerCase` also folds non-ASCII letters.
- Lmsr.MaxQtyForBudget: the non-integer `maxIter` values JavaScript would accept are not modelled (it is an `int`), and the step count is a ghost output stated alongside `qty`.
- Amm.CalculateAmmBet: a bought pool that ends at 0 gives no quote, where the source returns non-finite pools and amount; a missing priceImpact stands for the source's Infinity or NaN.
- Resolve.UsersPaidAndRated: the total credited is stated per user rather than as a sum over the whole users table.
- Positions are ordered by their place in the table, which the source's unordered select does not fix.

## Findings

| source | as written | input that shows it | evidently intended | confidence | as-written member | corrected member |
|---|---|---|---|---|---|---|
| pages/api/trade.ts:30 | the daily-limit check reads `costDelta`, which is declared by `const` only at line 37. An authenticated POST therefore always throws a ReferenceError, after the caller's row may have been inserted, and no trade ever commits | any POST with a valid token, e.g. a first-time user buying 1 share of an existing market | quote first, then reject when the day's spend plus the quoted cost exceeds 500 | not executed | Trade.AsWrittenNeverTrades | Trade.TradeSucceedsIff |
