/**
 * The resolve endpoint: an admin marks a market resolved, every position
 * in it is paid its holding in the winning outcome, and every position's
 * owner is scored on the market's closing LMSR prices.
 */
module Resolve {
  import opened Common
  import opened Tables
  import Lmsr
  import Reputation

  /** adminKeyMatches: the request's admin header equals the configured key. */
  datatype ResolveRequest = ResolveRequest(isPost: bool, adminKeyMatches: bool, marketId: MarketId, outcomeIndex: int)

  datatype ResolveOutcome = MethodNotAllowed | Forbidden | NotFound | Resolved

  datatype ResolveResult = ResolveResult(outcome: ResolveOutcome, db: Db)

  const ResolvedStatus: string := "resolved"

  /** The market's positions, in table order. */
  function MarketPositions(positions: seq<Position>, marketId: MarketId): (r: seq<Position>)
    ensures forall i :: 0 <= i < |r| ==> r[i].marketId == marketId && r[i] in positions
    ensures forall p :: p in positions && p.marketId == marketId ==> p in r
    decreases |positions|
  {
    if positions == [] then []
    else
      var init := MarketPositions(positions[..|positions| - 1], marketId);
      var p := positions[|positions| - 1];
      if p.marketId == marketId then init + [p] else init
  }

  /** Indices of the market's rows in the positions table. */
  function MatchIndices(positions: seq<Position>, marketId: MarketId): (idx: seq<int>)
    ensures forall k :: 0 <= k < |idx| ==> 0 <= idx[k] < |positions| && positions[idx[k]].marketId == marketId
    decreases |positions|
  {
    if positions == [] then []
    else
      var n := |positions| - 1;
      var init := MatchIndices(positions[..n], marketId);
      assert forall k :: 0 <= k < |init| ==> positions[init[k]] == positions[..n][init[k]];
      if positions[n].marketId == marketId then init + [n] else init
  }

  predicate Ascending(s: seq<int>)
  {
    forall k, l :: 0 <= k < l < |s| ==> s[k] < s[l]
  }

  /** Those indices ascend. */
  lemma {:induction false} MatchIndicesAscend(positions: seq<Position>, marketId: MarketId)
    ensures Ascending(MatchIndices(positions, marketId))
    decreases |positions|
  {
    if positions != [] {
      var n := |positions| - 1;
      MatchIndicesAscend(positions[..n], marketId);
      var init := MatchIndices(positions[..n], marketId);
      if positions[n].marketId == marketId {
        var idx := init + [n];
        assert forall k :: 0 <= k < |init| ==> idx[k] == init[k] && init[k] < n;
        assert idx[|init|] == n;
      }
    }
  }

  /** Those indices miss none of the market's rows. */
  lemma {:induction false} MatchIndicesComplete(positions: seq<Position>, marketId: MarketId)
    ensures forall j :: 0 <= j < |positions| && positions[j].marketId == marketId ==> j in MatchIndices(positions, marketId)
    decreases |positions|
  {
    if positions != [] {
      var n := |positions| - 1;
      MatchIndicesComplete(positions[..n], marketId);
      var init := MatchIndices(positions[..n], marketId);
      assert forall j :: 0 <= j < n ==> positions[j] == positions[..n][j];
      if positions[n].marketId == marketId {
        var idx := init + [n];
        assert idx[|init|] == n;
        assert forall j :: j in init ==> j in idx;
      }
    }
  }

  /** MarketPositions keeps exactly the market's rows, in table order, each once. */
  lemma {:induction false} MarketPositionsAreFilter(positions: seq<Position>, marketId: MarketId)
    ensures |MarketPositions(positions, marketId)| == |MatchIndices(positions, marketId)|
    ensures forall k :: 0 <= k < |MatchIndices(positions, marketId)| ==>
      MarketPositions(positions, marketId)[k] == positions[MatchIndices(positions, marketId)[k]]
    decreases |positions|
  {
    if positions != [] {
      var n := |positions| - 1;
      var prefix := positions[..n];
      MarketPositionsAreFilter(prefix, marketId);
      var init := MatchIndices(prefix, marketId);
      var rs := MarketPositions(prefix, marketId);
      assert forall k :: 0 <= k < |init| ==> positions[init[k]] == prefix[init[k]];
      if positions[n].marketId == marketId {
        assert MatchIndices(positions, marketId) == init + [n];
        assert MarketPositions(positions, marketId) == rs + [positions[n]];
        assert forall k :: 0 <= k < |init| ==> (init + [n])[k] == init[k] && (rs + [positions[n]])[k] == rs[k];
      } else {
        assert MatchIndices(positions, marketId) == init;
        assert MarketPositions(positions, marketId) == rs;
      }
    }
  }

  /** holdings[outcomeIndex], or 0 when there is no such entry. */
  function Payoff(holdings: seq<real>, outcomeIndex: int): real
  {
    if 0 <= outcomeIndex < |holdings| then holdings[outcomeIndex] else 0.0
  }

  /** Pay one position's owner, if the owner has a users row. */
  function Credit(users: map<UserId, User>, p: Position, outcomeIndex: int): map<UserId, User>
  {
    if p.userId in users then
      users[p.userId := users[p.userId].(balance := users[p.userId].balance + Payoff(p.holdings, outcomeIndex))]
    else users
  }

  /** The payout loop's effect on the users table. */
  function PayAll(users: map<UserId, User>, ps: seq<Position>, outcomeIndex: int): map<UserId, User>
    decreases |ps|
  {
    if ps == [] then users else Credit(PayAll(users, ps[..|ps| - 1], outcomeIndex), ps[|ps| - 1], outcomeIndex)
  }

  /** Total owed to one user over the given positions. */
  function PayoutFor(ps: seq<Position>, uid: UserId, outcomeIndex: int): real
    decreases |ps|
  {
    if ps == [] then 0.0
    else
      var p := ps[|ps| - 1];
      PayoutFor(ps[..|ps| - 1], uid, outcomeIndex) + (if p.userId == uid then Payoff(p.holdings, outcomeIndex) else 0.0)
  }

  /** Number of the given positions that belong to one user. */
  function CountFor(ps: seq<Position>, uid: UserId): nat
    decreases |ps|
  {
    if ps == [] then 0 else CountFor(ps[..|ps| - 1], uid) + (if ps[|ps| - 1].userId == uid then 1 else 0)
  }

  /** A user's rating after one more scored forecast. */
  function Rated(u: User, delta: real): User
  {
    var avg := Reputation.UpdateAverageReputation(u.reputation, u.reputationCount, delta);
    u.(reputation := avg.newAvg, reputationCount := avg.newCount)
  }

  function Rate(users: map<UserId, User>, p: Position, delta: real): map<UserId, User>
  {
    if p.userId in users then users[p.userId := Rated(users[p.userId], delta)] else users
  }

  /** The scoring loop's effect on the users table. */
  function RateAll(users: map<UserId, User>, ps: seq<Position>, delta: real): map<UserId, User>
    decreases |ps|
  {
    if ps == [] then users else Rate(RateAll(users, ps[..|ps| - 1], delta), ps[|ps| - 1], delta)
  }

  /** One reputation record per position, all with the same score. */
  function Records(ps: seq<Position>, marketId: MarketId, brier: real, delta: real): (r: seq<ReputationRecord>)
    ensures |r| == |ps|
    decreases |ps|
  {
    if ps == [] then []
    else Records(ps[..|ps| - 1], marketId, brier, delta) + [ReputationRecord(ps[|ps| - 1].userId, marketId, brier, delta)]
  }

  /** The market's closing prices, their Brier score at the winning outcome, and the reputation change. */
  datatype Score = Score(probs: seq<real>, brier: real, delta: real)

  function MarketScore(m: Lmsr.MathFns, market: Market, outcomeIndex: int): Score
    requires m.Lawful() && market.b > 0.0
  {
    var probs := Lmsr.GetPrices(m, market.q, market.b);
    var brier := Reputation.Brier(probs, outcomeIndex);
    Score(probs, brier, Reputation.ReputationDeltaFromBrier(brier, |probs|))
  }

  /** 405, 403, 404, or the resolution with its payouts and scores. */
  function HandleResolveSpec(m: Lmsr.MathFns, db: Db, req: ResolveRequest): (r: ResolveResult)
    requires m.Lawful() && ValidMarkets(db.markets)
    ensures r.db.users.Keys == db.users.Keys && r.db.markets.Keys == db.markets.Keys
    ensures r.db.positions == db.positions && r.db.trades == db.trades
  {
    if !req.isPost then ResolveResult(MethodNotAllowed, db)
    else if !req.adminKeyMatches then ResolveResult(Forbidden, db)
    else if req.marketId !in db.markets then ResolveResult(NotFound, db)
    else
      var market := db.markets[req.marketId];
      var ps := MarketPositions(db.positions, req.marketId);
      var score := MarketScore(m, market, req.outcomeIndex);
      PayAllEffect(db.users, ps, req.outcomeIndex, "");
      RateAllEffect(PayAll(db.users, ps, req.outcomeIndex), ps, score.delta, "");
      ResolveResult(Resolved, db.(
        markets := db.markets[req.marketId := market.(status := ResolvedStatus)],
        resolutions := db.resolutions + [Resolution(req.marketId, req.outcomeIndex)],
        users := RateAll(PayAll(db.users, ps, req.outcomeIndex), ps, score.delta),
        reputationRecords := db.reputationRecords + Records(ps, req.marketId, score.brier, score.delta),
        events := db.events + [MarketResolved(req.marketId, req.outcomeIndex)]))
  }

  /** Paying leaves the set of users and everything but balances alone, and adds each user's payout. */
  lemma {:induction false} PayAllEffect(users: map<UserId, User>, ps: seq<Position>, outcomeIndex: int, uid: UserId)
    ensures PayAll(users, ps, outcomeIndex).Keys == users.Keys
    ensures uid in users ==>
      PayAll(users, ps, outcomeIndex)[uid] ==
        users[uid].(balance := users[uid].balance + PayoutFor(ps, uid, outcomeIndex))
    decreases |ps|
  {
    if ps != [] {
      PayAllEffect(users, ps[..|ps| - 1], outcomeIndex, uid);
      PayAllEffect(users, ps[..|ps| - 1], outcomeIndex, ps[|ps| - 1].userId);
    }
  }

  /** Scoring leaves the set of users and their balances alone, and counts each user's positions. */
  lemma {:induction false} RateAllEffect(users: map<UserId, User>, ps: seq<Position>, delta: real, uid: UserId)
    ensures RateAll(users, ps, delta).Keys == users.Keys
    ensures uid in users ==>
      var u := RateAll(users, ps, delta)[uid];
      u.balance == users[uid].balance && u.username == users[uid].username &&
      u.reputationCount == users[uid].reputationCount + CountFor(ps, uid)
    decreases |ps|
  {
    if ps != [] {
      RateAllEffect(users, ps[..|ps| - 1], delta, uid);
      RateAllEffect(users, ps[..|ps| - 1], delta, ps[|ps| - 1].userId);
    }
  }

  /** Total of all the scores a user's mean rating stands for. */
  function Weight(u: User): real
  {
    u.reputation * u.reputationCount as real
  }

  lemma WeightIgnoresBalance(u: User, balance: real)
    ensures Weight(u.(balance := balance)) == Weight(u)
  {
  }

  /** One more score adds its delta to the total. */
  lemma RatedWeight(u: User, delta: real)
    ensures Weight(Rated(u, delta)) == Weight(u) + delta
  {
    var avg := Reputation.UpdateAverageReputation(u.reputation, u.reputationCount, delta);
    assert Weight(Rated(u, delta)) == avg.newAvg * avg.newCount as real;
  }

  /** Scoring folds one delta per position into each user's running mean. */
  lemma {:induction false} RateAllMean(users: map<UserId, User>, ps: seq<Position>, delta: real, uid: UserId)
    requires uid in users
    ensures uid in RateAll(users, ps, delta)
    ensures Weight(RateAll(users, ps, delta)[uid]) == Weight(users[uid]) + Scaled(CountFor(ps, uid), delta)
    decreases |ps|
  {
    RateAllEffect(users, ps, delta, uid);
    if ps != [] {
      var prefix := ps[..|ps| - 1];
      RateAllMean(users, prefix, delta, uid);
      RateAllEffect(users, prefix, delta, uid);
      var before := RateAll(users, prefix, delta)[uid];
      var after := RateAll(users, ps, delta)[uid];
      if ps[|ps| - 1].userId == uid {
        assert after == Rated(before, delta);
        assert CountFor(ps, uid) == CountFor(prefix, uid) + 1;
        RatedWeight(before, delta);
      } else {
        assert after == before;
        assert CountFor(ps, uid) == CountFor(prefix, uid);
      }
    }
  }

  /** c copies of d added up, which is c * d (ScaledIsProduct). */
  function Scaled(c: nat, d: real): real
  {
    if c == 0 then 0.0 else Scaled(c - 1, d) + d
  }

  lemma {:induction false} ScaledIsProduct(c: nat, d: real)
    ensures Scaled(c, d) == c as real * d
  {
    if c > 0 {
      ScaledIsProduct(c - 1, d);
      assert c as real * d == (c - 1) as real * d + d;
    }
  }

  /** Ratings in [-5, 5] stay there when every delta is in [-5, 5]. */
  lemma {:induction false} RateAllBounded(users: map<UserId, User>, ps: seq<Position>, delta: real, uid: UserId)
    requires -5.0 <= delta <= 5.0
    requires uid in users && -5.0 <= users[uid].reputation <= 5.0
    ensures uid in RateAll(users, ps, delta)
    ensures -5.0 <= RateAll(users, ps, delta)[uid].reputation <= 5.0
    decreases |ps|
  {
    RateAllEffect(users, ps, delta, uid);
    if ps != [] {
      var before := RateAll(users, ps[..|ps| - 1], delta);
      RateAllBounded(users, ps[..|ps| - 1], delta, uid);
      if ps[|ps| - 1].userId == uid {
        Reputation.AverageStaysInBounds(before[uid].reputation, before[uid].reputationCount, delta, -5.0, 5.0);
      }
    }
  }

  /** A user with no position in the market is neither paid nor scored. */
  lemma {:induction false} NoPositionNoChange(users: map<UserId, User>, ps: seq<Position>, outcomeIndex: int, delta: real, uid: UserId)
    requires uid in users && CountFor(ps, uid) == 0
    ensures uid in RateAll(PayAll(users, ps, outcomeIndex), ps, delta)
    ensures RateAll(PayAll(users, ps, outcomeIndex), ps, delta)[uid] == users[uid]
    decreases |ps|
  {
    if ps != [] {
      NoPositionNoChange(users, ps[..|ps| - 1], outcomeIndex, delta, uid);
      PayAllEffect(users, ps[..|ps| - 1], outcomeIndex, uid);
      PayAllEffect(users, ps, outcomeIndex, uid);
      RateAllEffect(PayAll(users, ps, outcomeIndex), ps[..|ps| - 1], delta, uid);
      RateAllEffect(PayAll(users, ps[..|ps| - 1], outcomeIndex), ps[..|ps| - 1], delta, uid);
      RateUnchanged(PayAll(users, ps, outcomeIndex), PayAll(users, ps[..|ps| - 1], outcomeIndex), ps[..|ps| - 1], delta, uid);
    }
  }

  /** Scoring a user depends only on that user's row. */
  lemma {:induction false} RateUnchanged(u1: map<UserId, User>, u2: map<UserId, User>, ps: seq<Position>, delta: real, uid: UserId)
    requires uid in u1 && uid in u2 && u1[uid] == u2[uid]
    ensures uid in RateAll(u1, ps, delta) && uid in RateAll(u2, ps, delta)
    ensures RateAll(u1, ps, delta)[uid] == RateAll(u2, ps, delta)[uid]
    decreases |ps|
  {
    RateAllEffect(u1, ps, delta, uid);
    RateAllEffect(u2, ps, delta, uid);
    if ps != [] {
      RateUnchanged(u1, u2, ps[..|ps| - 1], delta, uid);
    }
  }

  lemma {:induction false} RecordsAt(ps: seq<Position>, marketId: MarketId, brier: real, delta: real, i: int)
    requires 0 <= i < |ps|
    ensures Records(ps, marketId, brier, delta)[i] == ReputationRecord(ps[i].userId, marketId, brier, delta)
    decreases |ps|
  {
    if i < |ps| - 1 {
      RecordsAt(ps[..|ps| - 1], marketId, brier, delta, i);
    }
  }

  /** Without the POST method, the admin key or the market, nothing is written. */
  lemma RejectionWritesNothing(m: Lmsr.MathFns, db: Db, req: ResolveRequest)
    requires m.Lawful() && ValidMarkets(db.markets)
    ensures var r := HandleResolveSpec(m, db, req);
      r.outcome != Resolved ==> r.db == db
    ensures HandleResolveSpec(m, db, req).outcome == Resolved <==>
      req.isPost && req.adminKeyMatches && req.marketId in db.markets
  {
  }

  /** Resolution marks the market, appends one resolution and one event, and keeps positions and trades. */
  lemma ResolutionRecorded(m: Lmsr.MathFns, db: Db, req: ResolveRequest)
    requires m.Lawful() && ValidMarkets(db.markets)
    requires HandleResolveSpec(m, db, req).outcome == Resolved
    ensures var r := HandleResolveSpec(m, db, req);
      var market := db.markets[req.marketId];
      r.db.markets == db.markets[req.marketId := market.(status := ResolvedStatus)] &&
      r.db.resolutions == db.resolutions + [Resolution(req.marketId, req.outcomeIndex)] &&
      r.db.events == db.events + [MarketResolved(req.marketId, req.outcomeIndex)] &&
      r.db.positions == db.positions && r.db.trades == db.trades
  {
  }

  /**
   * Each user is paid the winning-outcome holdings of their positions in
   * the market and rated once per position: the count grows by the number
   * of positions and mean * count by that many deltas. The set of users is
   * unchanged.
   */
  lemma UsersPaidAndRated(m: Lmsr.MathFns, db: Db, req: ResolveRequest, uid: UserId)
    requires m.Lawful() && ValidMarkets(db.markets)
    requires HandleResolveSpec(m, db, req).outcome == Resolved && uid in db.users
    ensures var r := HandleResolveSpec(m, db, req);
      var ps := MarketPositions(db.positions, req.marketId);
      r.db.users.Keys == db.users.Keys &&
      r.db.users[uid].username == db.users[uid].username &&
      r.db.users[uid].balance == db.users[uid].balance + PayoutFor(ps, uid, req.outcomeIndex) &&
      r.db.users[uid].reputationCount == db.users[uid].reputationCount + CountFor(ps, uid) &&
      Weight(r.db.users[uid]) ==
        Weight(db.users[uid]) + Scaled(CountFor(ps, uid), MarketScore(m, db.markets[req.marketId], req.outcomeIndex).delta) &&
      (CountFor(ps, uid) == 0 ==> r.db.users[uid] == db.users[uid])
  {
    var ps := MarketPositions(db.positions, req.marketId);
    var score := MarketScore(m, db.markets[req.marketId], req.outcomeIndex);
    var paid := PayAll(db.users, ps, req.outcomeIndex);
    PayAllEffect(db.users, ps, req.outcomeIndex, uid);
    RateAllEffect(paid, ps, score.delta, uid);
    RateAllMean(paid, ps, score.delta, uid);
    var rated := RateAll(paid, ps, score.delta);
    assert HandleResolveSpec(m, db, req).db.users == rated;
    WeightIgnoresBalance(db.users[uid], db.users[uid].balance + PayoutFor(ps, uid, req.outcomeIndex));
    assert Weight(paid[uid]) == Weight(db.users[uid]);
    if CountFor(ps, uid) == 0 {
      NoPositionNoChange(db.users, ps, req.outcomeIndex, score.delta, uid);
    }
  }

  /** Resolution keeps every market's b positive and position rows unique. */
  lemma ResolvePreservesValid(m: Lmsr.MathFns, db: Db, req: ResolveRequest)
    requires m.Lawful() && ValidDb(db)
    ensures ValidDb(HandleResolveSpec(m, db, req).db)
  {
  }

  /** Ratings in [-5, 5] stay in [-5, 5]. */
  lemma RatingsStayBounded(m: Lmsr.MathFns, db: Db, req: ResolveRequest, uid: UserId)
    requires m.Lawful() && ValidMarkets(db.markets)
    requires HandleResolveSpec(m, db, req).outcome == Resolved
    requires uid in db.users && -5.0 <= db.users[uid].reputation <= 5.0
    ensures uid in HandleResolveSpec(m, db, req).db.users
    ensures -5.0 <= HandleResolveSpec(m, db, req).db.users[uid].reputation <= 5.0
  {
    var ps := MarketPositions(db.positions, req.marketId);
    var score := MarketScore(m, db.markets[req.marketId], req.outcomeIndex);
    PayAllEffect(db.users, ps, req.outcomeIndex, uid);
    RateAllBounded(PayAll(db.users, ps, req.outcomeIndex), ps, score.delta, uid);
  }

  /**
   * One record per position, winners and losers alike, all carrying the
   * same Brier score (non-negative, at most 2 for a winning outcome in
   * range) and the same delta in [-5, 5].
   */
  lemma OneRecordPerPosition(m: Lmsr.MathFns, db: Db, req: ResolveRequest, i: int)
    requires m.Lawful() && ValidMarkets(db.markets)
    requires HandleResolveSpec(m, db, req).outcome == Resolved
    requires 0 <= i < |MarketPositions(db.positions, req.marketId)|
    ensures var r := HandleResolveSpec(m, db, req);
      var ps := MarketPositions(db.positions, req.marketId);
      var market := db.markets[req.marketId];
      var score := MarketScore(m, market, req.outcomeIndex);
      |r.db.reputationRecords| == |db.reputationRecords| + |ps| &&
      r.db.reputationRecords[..|db.reputationRecords|] == db.reputationRecords &&
      r.db.reputationRecords[|db.reputationRecords| + i] ==
        ReputationRecord(ps[i].userId, req.marketId, score.brier, score.delta) &&
      score.brier >= 0.0 && -5.0 <= score.delta <= 5.0 &&
      (0 <= req.outcomeIndex < |market.q| ==> score.brier <= 2.0)
  {
    var ps := MarketPositions(db.positions, req.marketId);
    var market := db.markets[req.marketId];
    var score := MarketScore(m, market, req.outcomeIndex);
    RecordsAt(ps, req.marketId, score.brier, score.delta, i);
    if 0 <= req.outcomeIndex < |market.q| {
      Lmsr.PricesAreProbabilities(m, market.q, market.b);
      Reputation.BrierAtMostTwo(score.probs, req.outcomeIndex);
    }
  }

  /** There is no already-resolved guard: resolving twice pays every position twice. */
  lemma ResolveTwicePaysTwice(m: Lmsr.MathFns, db: Db, req: ResolveRequest, uid: UserId)
    requires m.Lawful() && ValidMarkets(db.markets)
    requires HandleResolveSpec(m, db, req).outcome == Resolved && uid in db.users
    ensures var once := HandleResolveSpec(m, db, req).db;
      ValidMarkets(once.markets) &&
      var twice := HandleResolveSpec(m, once, req);
      var ps := MarketPositions(db.positions, req.marketId);
      twice.outcome == Resolved && uid in twice.db.users &&
      twice.db.users[uid].balance == db.users[uid].balance + 2.0 * PayoutFor(ps, uid, req.outcomeIndex) &&
      |twice.db.reputationRecords| == |db.reputationRecords| + 2 * |ps|
  {
    var once := HandleResolveSpec(m, db, req).db;
    UsersPaidAndRated(m, db, req, uid);
    assert once.markets[req.marketId].q == db.markets[req.marketId].q;
    UsersPaidAndRated(m, once, req, uid);
  }

  /** The endpoint, writing the tables step by step. */
  method HandleResolve(store: Store, m: Lmsr.MathFns, req: ResolveRequest) returns (outcome: ResolveOutcome)
    requires m.Lawful() && ValidMarkets(store.markets)
    modifies store
    ensures ResolveResult(outcome, store.Snapshot()) == HandleResolveSpec(m, old(store.Snapshot()), req)
    ensures old(store.Valid()) ==> store.Valid()
  {
    if !req.isPost {
      return MethodNotAllowed;
    }
    if !req.adminKeyMatches {
      return Forbidden;
    }
    if req.marketId !in store.markets {
      return NotFound;
    }
    var market := store.markets[req.marketId];
    store.markets := store.markets[req.marketId := market.(status := ResolvedStatus)];
    store.resolutions := store.resolutions + [Resolution(req.marketId, req.outcomeIndex)];
    var ps := MarketPositions(store.positions, req.marketId);
    PayoutLoop(store, ps, req.outcomeIndex);
    var probs := Lmsr.GetPrices(m, market.q, market.b);
    ScoringLoop(store, ps, req.marketId, probs, req.outcomeIndex);
    store.events := store.events + [MarketResolved(req.marketId, req.outcomeIndex)];
    outcome := Resolved;
  }

  /** Credit each position's owner with the winning-outcome holding. */
  method PayoutLoop(store: Store, ps: seq<Position>, outcomeIndex: int)
    modifies store
    ensures store.Snapshot() == old(store.Snapshot()).(users := PayAll(old(store.users), ps, outcomeIndex))
  {
    ghost var db := store.Snapshot();
    for i := 0 to |ps|
      invariant store.Snapshot() == db.(users := PayAll(db.users, ps[..i], outcomeIndex))
    {
      var pos := ps[i];
      var payoff := if 0 <= outcomeIndex < |pos.holdings| then pos.holdings[outcomeIndex] else 0.0;
      if pos.userId in store.users {
        var u := store.users[pos.userId];
        store.users := store.users[pos.userId := u.(balance := u.balance + payoff)];
      }
      assert ps[..i + 1][..i] == ps[..i];
    }
    assert ps[..|ps|] == ps;
  }

  /** Append one record per position and fold the delta into each owner's rating. */
  method ScoringLoop(store: Store, ps: seq<Position>, marketId: MarketId, probs: seq<real>, outcomeIndex: int)
    modifies store
    ensures var brier := Reputation.Brier(probs, outcomeIndex);
      var delta := Reputation.ReputationDeltaFromBrier(brier, |probs|);
      store.Snapshot() == old(store.Snapshot()).(
        users := RateAll(old(store.users), ps, delta),
        reputationRecords := old(store.reputationRecords) + Records(ps, marketId, brier, delta))
  {
    ghost var db := store.Snapshot();
    ghost var delta0 := Reputation.ReputationDeltaFromBrier(Reputation.Brier(probs, outcomeIndex), |probs|);
    for i := 0 to |ps|
      invariant store.Snapshot() == db.(
        users := RateAll(db.users, ps[..i], delta0),
        reputationRecords := db.reputationRecords + Records(ps[..i], marketId, Reputation.Brier(probs, outcomeIndex), delta0))
    {
      var userId := ps[i].userId;
      var brier := Reputation.BrierScore(probs, outcomeIndex);
      var delta := Reputation.ReputationDeltaFromBrier(brier, |probs|);
      store.reputationRecords := store.reputationRecords + [ReputationRecord(userId, marketId, brier, delta)];
      if userId in store.users {
        var u := store.users[userId];
        var avg := Reputation.UpdateAverageReputation(u.reputation, u.reputationCount, delta);
        store.users := store.users[userId := u.(reputation := avg.newAvg, reputationCount := avg.newCount)];
      }
      assert ps[..i + 1][..i] == ps[..i];
    }
    assert ps[..|ps|] == ps;
  }
}
