/**
 * The trade endpoint: authenticate, make sure the caller has a users row,
 * quote the purchase on the market's LMSR, check the daily spending limit
 * and the balance, then record the trade, update the caller's position,
 * move the market and debit the caller.
 */
module Trade {
  import opened Common
  import opened Tables
  import Lmsr

  /** Most a user may spend over the trailing day. */
  const DailyLimit: real := 500.0

  /** What authentication yielded: no token, an error, no user id, or the caller's id. */
  datatype Auth = MissingToken | AuthFailed | NoUserId | Verified(uid: UserId)

  datatype TradeRequest = TradeRequest(isPost: bool, auth: Auth, marketId: MarketId, outcomeIndex: int, qty: real)

  datatype TradeOutcome =
    | MethodNotAllowed
    | Unauthorized
    | DailyLimitExceeded
    | MarketNotFound
    | InsufficientBalance
    | ReferenceError
    | Traded(newBalance: real, holdings: seq<real>)

  datatype TradeResult = TradeResult(outcome: TradeOutcome, db: Db)

  /** The row created for a first-time caller: "user_" and the first six characters of the id. */
  function NewUser(uid: UserId, initialBalance: real): (u: User)
    ensures u.balance == initialBalance && u.reputation == 0.0 && u.reputationCount == 0
    ensures u.username == "user_" + (if |uid| < 6 then uid else uid[..6])
  {
    User("user_" + uid[..if |uid| < 6 then |uid| else 6], initialBalance, 0.0, 0)
  }

  /** The users table once the caller has a row; existing rows are untouched. */
  function WithUser(users: map<UserId, User>, uid: UserId, initialBalance: real): (r: map<UserId, User>)
    ensures r.Keys == users.Keys + {uid}
    ensures forall id :: id in users ==> r[id] == users[id]
    ensures uid !in users ==> r[uid] == NewUser(uid, initialBalance)
  {
    if uid in users then users else users[uid := NewUser(uid, initialBalance)]
  }

  /** Holdings extended with zeros to at least n entries. */
  function Padded(h: seq<real>, n: nat): (r: seq<real>)
    ensures |r| == Max(|h|, n)
  {
    if |h| >= n then h else h + Repeat(0.0, n - |h|)
  }

  /** Padding keeps every existing entry and adds only zeros. */
  lemma PaddedAt(h: seq<real>, n: nat, j: int)
    requires 0 <= j < Max(|h|, n)
    ensures Padded(h, n)[j] == if j < |h| then h[j] else 0.0
  {
    if |h| < n && j >= |h| {
      RepeatAt(0.0, n - |h|, j - |h|);
    }
  }

  /** The zero-padding loop. */
  method PadHoldings(holdings: seq<real>, n: nat) returns (r: seq<real>)
    ensures r == Padded(holdings, n)
  {
    r := holdings;
    while |r| < n
      invariant |holdings| <= |r| <= Max(|holdings|, n)
      invariant r == holdings + Repeat(0.0, |r| - |holdings|)
      decreases n - |r|
    {
      r := r + [0.0];
    }
    assert Repeat(0.0, 0) == [];
  }

  /** Holdings after the trade: padded to n outcomes, with qty added at outcomeIndex. */
  function UpdatedHoldings(h: seq<real>, n: nat, outcomeIndex: int, qty: real): (r: seq<real>)
    requires 0 <= outcomeIndex < n
    ensures |r| == Max(|h|, n)
  {
    var p := Padded(h, n);
    p[outcomeIndex := p[outcomeIndex] + qty]
  }

  /** The traded outcome grows by qty; every other entry keeps its value (0 if new). */
  lemma UpdatedHoldingsAt(h: seq<real>, n: nat, outcomeIndex: int, qty: real, j: int)
    requires 0 <= outcomeIndex < n && 0 <= j < Max(|h|, n)
    ensures UpdatedHoldings(h, n, outcomeIndex, qty)[j] ==
      (if j < |h| then h[j] else 0.0) + (if j == outcomeIndex then qty else 0.0)
  {
    PaddedAt(h, n, j);
  }

  /** The caller's current holdings in the market, or none. */
  function CurrentHoldings(positions: seq<Position>, uid: UserId, marketId: MarketId): seq<real>
  {
    var idx := FindPosition(positions, uid, marketId);
    if idx.Some? then positions[idx.value].holdings else []
  }

  /** The positions table with the caller's holdings replaced, or a new row appended. */
  function WithHoldings(positions: seq<Position>, uid: UserId, marketId: MarketId, holdings: seq<real>): (r: seq<Position>)
  {
    match FindPosition(positions, uid, marketId)
    case Some(i) => positions[i := positions[i].(holdings := holdings)]
    case None => positions + [Position(uid, marketId, holdings)]
  }

  /** What a request must satisfy for the quote to be defined. */
  ghost predicate Serviceable(db: Db, req: TradeRequest)
  {
    ValidMarkets(db.markets) &&
    (req.marketId in db.markets ==> 0 <= req.outcomeIndex < |db.markets[req.marketId].q|)
  }

  /** All writes of an accepted trade. */
  function Commit(db: Db, uid: UserId, req: TradeRequest, quote: Lmsr.BuyQuote): (r: TradeResult)
    requires uid in db.users && req.marketId in db.markets && 0 <= req.outcomeIndex < |quote.newQ|
  {
    var user := db.users[uid];
    var market := db.markets[req.marketId];
    var holdings := UpdatedHoldings(CurrentHoldings(db.positions, uid, req.marketId), |quote.newQ|, req.outcomeIndex, req.qty);
    var newBalance := user.balance - quote.costDelta;
    TradeResult(
      Traded(newBalance, holdings),
      db.(
        users := db.users[uid := user.(balance := newBalance)],
        markets := db.markets[req.marketId := market.(q := quote.newQ)],
        positions := WithHoldings(db.positions, uid, req.marketId, holdings),
        trades := db.trades + [TradeRow(uid, req.marketId, req.outcomeIndex, req.qty, quote.costDelta)],
        events := db.events + [TradeEvent(uid, req.marketId, req.outcomeIndex, req.qty, quote.costDelta)]))
  }

  /** The quote for a request on an existing market. */
  function Quote(m: Lmsr.MathFns, db: Db, req: TradeRequest): (r: Lmsr.BuyQuote)
    requires Serviceable(db, req) && req.marketId in db.markets
    ensures |r.newQ| == |db.markets[req.marketId].q|
  {
    var market := db.markets[req.marketId];
    Lmsr.BuyCostDelta(m, market.q, req.outcomeIndex, req.qty, market.b)
  }

  /**
   * The handler with the daily-limit check applied to the quoted cost:
   * 405, 401, the caller's row created, 404, 429, 400, then the commit.
   * recentCosts are the costs of the caller's trades over the last day.
   */
  function HandleTradeSpec(m: Lmsr.MathFns, db: Db, req: TradeRequest, recentCosts: seq<real>, initialBalance: real): (r: TradeResult)
    requires Serviceable(db, req)
    ensures r.db.users.Keys == db.users.Keys + (if req.isPost && req.auth.Verified? then {req.auth.uid} else {})
    ensures r.db.markets.Keys == db.markets.Keys
    ensures r.db.resolutions == db.resolutions && r.db.reputationRecords == db.reputationRecords
  {
    if !req.isPost then TradeResult(MethodNotAllowed, db)
    else if !req.auth.Verified? then TradeResult(Unauthorized, db)
    else
      var uid := req.auth.uid;
      var db1 := db.(users := WithUser(db.users, uid, initialBalance));
      if req.marketId !in db.markets then TradeResult(MarketNotFound, db1)
      else
        var quote := Quote(m, db, req);
        if Sum(recentCosts) + quote.costDelta > DailyLimit then TradeResult(DailyLimitExceeded, db1)
        else if db1.users[uid].balance < quote.costDelta then TradeResult(InsufficientBalance, db1)
        else Commit(db1, uid, req, quote)
  }

  /**
   * The handler as written: the daily-limit check reads the quoted cost
   * before the quote is declared, so every authenticated request throws
   * there, after the caller's row has been created.
   */
  function HandleTradeAsWritten(db: Db, req: TradeRequest, initialBalance: real): (r: TradeResult)
    ensures r.outcome == ReferenceError <==> req.isPost && req.auth.Verified?
    ensures r.db.users.Keys == db.users.Keys + (if req.isPost && req.auth.Verified? then {req.auth.uid} else {})
  {
    if !req.isPost then TradeResult(MethodNotAllowed, db)
    else if !req.auth.Verified? then TradeResult(Unauthorized, db)
    else TradeResult(ReferenceError, db.(users := WithUser(db.users, req.auth.uid, initialBalance)))
  }

  /** As written, no request ever trades; authenticated ones fail after creating the caller's row. */
  lemma AsWrittenNeverTrades(db: Db, req: TradeRequest, initialBalance: real)
    ensures var r := HandleTradeAsWritten(db, req, initialBalance);
      !r.outcome.Traded? && r.db.markets == db.markets && r.db.positions == db.positions &&
      r.db.trades == db.trades && r.db.events == db.events &&
      (req.isPost && req.auth.Verified? ==> r.outcome == ReferenceError && req.auth.uid in r.db.users)
  {
  }

  /** With the check after the quote, a request trades exactly when every check passes. */
  lemma TradeSucceedsIff(m: Lmsr.MathFns, db: Db, req: TradeRequest, recentCosts: seq<real>, initialBalance: real)
    requires Serviceable(db, req)
    ensures HandleTradeSpec(m, db, req, recentCosts, initialBalance).outcome.Traded? <==>
      req.isPost && req.auth.Verified? && req.marketId in db.markets &&
      Sum(recentCosts) + Quote(m, db, req).costDelta <= DailyLimit &&
      WithUser(db.users, req.auth.uid, initialBalance)[req.auth.uid].balance >= Quote(m, db, req).costDelta
  {
  }

  /**
   * A 405 or 401 writes nothing; any later rejection writes only the
   * caller's row, created if it was missing.
   */
  lemma RejectionWritesNothing(m: Lmsr.MathFns, db: Db, req: TradeRequest, recentCosts: seq<real>, initialBalance: real)
    requires Serviceable(db, req)
    ensures var r := HandleTradeSpec(m, db, req, recentCosts, initialBalance);
      !req.isPost || !req.auth.Verified? ==> !r.outcome.Traded? && r.db == db
    ensures var r := HandleTradeSpec(m, db, req, recentCosts, initialBalance);
      req.isPost && req.auth.Verified? && !r.outcome.Traded? ==>
        r.db == db.(users := WithUser(db.users, req.auth.uid, initialBalance))
  {
  }

  /** An accepted trade appends one trade row and one event, both carrying the quoted cost. */
  lemma TradeAppendsOneRow(m: Lmsr.MathFns, db: Db, req: TradeRequest, recentCosts: seq<real>, initialBalance: real)
    requires Serviceable(db, req)
    requires HandleTradeSpec(m, db, req, recentCosts, initialBalance).outcome.Traded?
    ensures var r := HandleTradeSpec(m, db, req, recentCosts, initialBalance);
      var cost := Quote(m, db, req).costDelta;
      req.auth.Verified? && req.marketId in db.markets &&
      cost == Lmsr.Cost(m, Quote(m, db, req).newQ, db.markets[req.marketId].b) -
              Lmsr.Cost(m, db.markets[req.marketId].q, db.markets[req.marketId].b) &&
      r.db.trades == db.trades + [TradeRow(req.auth.uid, req.marketId, req.outcomeIndex, req.qty, cost)] &&
      r.db.events == db.events + [TradeEvent(req.auth.uid, req.marketId, req.outcomeIndex, req.qty, cost)] &&
      r.db.resolutions == db.resolutions && r.db.reputationRecords == db.reputationRecords
  {
  }

  /** An accepted trade keeps the caller within the daily limit and debits exactly the cost. */
  lemma TradeDebitsCaller(m: Lmsr.MathFns, db: Db, req: TradeRequest, recentCosts: seq<real>, initialBalance: real)
    requires Serviceable(db, req)
    requires HandleTradeSpec(m, db, req, recentCosts, initialBalance).outcome.Traded?
    ensures var r := HandleTradeSpec(m, db, req, recentCosts, initialBalance);
      var uid := req.auth.uid;
      var before := WithUser(db.users, uid, initialBalance)[uid];
      var cost := Quote(m, db, req).costDelta;
      Sum(recentCosts) + cost <= DailyLimit &&
      r.db.users.Keys == db.users.Keys + {uid} &&
      r.db.users[uid] == before.(balance := before.balance - cost) &&
      r.db.users[uid].balance >= 0.0 &&
      r.outcome.newBalance == r.db.users[uid].balance &&
      (forall id :: id in db.users && id != uid ==> r.db.users[id] == db.users[id])
  {
  }

  /** An accepted trade moves only the traded outcome of the traded market. */
  lemma TradeMovesMarket(m: Lmsr.MathFns, db: Db, req: TradeRequest, recentCosts: seq<real>, initialBalance: real)
    requires Serviceable(db, req)
    requires HandleTradeSpec(m, db, req, recentCosts, initialBalance).outcome.Traded?
    ensures var r := HandleTradeSpec(m, db, req, recentCosts, initialBalance);
      var market := db.markets[req.marketId];
      var newQ := r.db.markets[req.marketId].q;
      r.db.markets == db.markets[req.marketId := market.(q := newQ)] &&
      |newQ| == |market.q| && newQ[req.outcomeIndex] == market.q[req.outcomeIndex] + req.qty &&
      (forall j :: 0 <= j < |newQ| && j != req.outcomeIndex ==> newQ[j] == market.q[j])
  {
  }

  /** An accepted trade stores the caller's updated holdings and touches no other position. */
  lemma TradeUpdatesPosition(m: Lmsr.MathFns, db: Db, req: TradeRequest, recentCosts: seq<real>, initialBalance: real)
    requires Serviceable(db, req)
    requires HandleTradeSpec(m, db, req, recentCosts, initialBalance).outcome.Traded?
    ensures var r := HandleTradeSpec(m, db, req, recentCosts, initialBalance);
      var uid := req.auth.uid;
      var h := UpdatedHoldings(CurrentHoldings(db.positions, uid, req.marketId),
                               |db.markets[req.marketId].q|, req.outcomeIndex, req.qty);
      r.outcome.holdings == h &&
      r.db.positions == WithHoldings(db.positions, uid, req.marketId, h) &&
      CurrentHoldings(r.db.positions, uid, req.marketId) == h
  {
    var uid := req.auth.uid;
    var h := UpdatedHoldings(CurrentHoldings(db.positions, uid, req.marketId),
                             |db.markets[req.marketId].q|, req.outcomeIndex, req.qty);
    WithHoldingsFound(db.positions, uid, req.marketId, h);
  }

  /** After the write, looking the position up again finds the written holdings. */
  lemma WithHoldingsFound(positions: seq<Position>, uid: UserId, marketId: MarketId, h: seq<real>)
    ensures CurrentHoldings(WithHoldings(positions, uid, marketId, h), uid, marketId) == h
  {
    var ps := WithHoldings(positions, uid, marketId, h);
    match FindPosition(positions, uid, marketId)
    case Some(i) =>
      assert ps[i].userId == uid && ps[i].marketId == marketId;
      assert forall j :: 0 <= j < i ==> ps[j] == positions[j];
      assert FindPosition(ps, uid, marketId) == Some(i);
    case None =>
      assert forall j :: 0 <= j < |positions| ==> ps[j] == positions[j];
      assert ps[|positions|].userId == uid && ps[|positions|].marketId == marketId;
      var k := FindPosition(ps, uid, marketId);
      assert k.Some?;
      assert k.value == |positions|;
  }

  /** Writing holdings keeps one position per (user, market) and changes no other row. */
  lemma WithHoldingsUnique(positions: seq<Position>, uid: UserId, marketId: MarketId, h: seq<real>)
    requires UniquePositions(positions)
    ensures UniquePositions(WithHoldings(positions, uid, marketId, h))
  {
  }

  /** Trading keeps the database well formed. */
  lemma TradePreservesValid(m: Lmsr.MathFns, db: Db, req: TradeRequest, recentCosts: seq<real>, initialBalance: real)
    requires Serviceable(db, req) && ValidDb(db)
    ensures ValidDb(HandleTradeSpec(m, db, req, recentCosts, initialBalance).db)
  {
    if req.isPost && req.auth.Verified? && req.marketId in db.markets {
      var uid := req.auth.uid;
      var h := UpdatedHoldings(CurrentHoldings(db.positions, uid, req.marketId),
                               |db.markets[req.marketId].q|, req.outcomeIndex, req.qty);
      WithHoldingsUnique(db.positions, uid, req.marketId, h);
    }
  }

  /**
   * Quantities are not validated: a sale (qty < 0) passes every check that
   * a purchase would and credits the caller, since its quoted cost is negative.
   */
  lemma SaleCreditsCaller(m: Lmsr.MathFns, db: Db, req: TradeRequest, recentCosts: seq<real>, initialBalance: real)
    requires Serviceable(db, req) && m.Lawful() && req.qty < 0.0
    requires HandleTradeSpec(m, db, req, recentCosts, initialBalance).outcome.Traded?
    ensures var r := HandleTradeSpec(m, db, req, recentCosts, initialBalance);
      r.db.users[req.auth.uid].balance > WithUser(db.users, req.auth.uid, initialBalance)[req.auth.uid].balance
  {
    var market := db.markets[req.marketId];
    Lmsr.CostDeltaSign(m, market.q, req.outcomeIndex, req.qty, market.b);
  }

  /** The endpoint, writing the tables step by step. */
  method HandleTrade(store: Store, m: Lmsr.MathFns, req: TradeRequest, recentCosts: seq<real>, initialBalance: real)
    returns (outcome: TradeOutcome)
    requires store.Valid() && Serviceable(store.Snapshot(), req)
    modifies store
    ensures TradeResult(outcome, store.Snapshot()) == HandleTradeSpec(m, old(store.Snapshot()), req, recentCosts, initialBalance)
    ensures store.Valid()
  {
    ghost var db := store.Snapshot();
    TradePreservesValid(m, db, req, recentCosts, initialBalance);
    if !req.isPost {
      return MethodNotAllowed;
    }
    if !req.auth.Verified? {
      return Unauthorized;
    }
    var uid := req.auth.uid;
    if uid !in store.users {
      store.users := store.users[uid := NewUser(uid, initialBalance)];
    }
    assert store.Snapshot() == db.(users := WithUser(db.users, uid, initialBalance));
    var user := store.users[uid];
    if req.marketId !in store.markets {
      return MarketNotFound;
    }
    var market := store.markets[req.marketId];
    var quote := Lmsr.BuyCostDelta(m, market.q, req.outcomeIndex, req.qty, market.b);
    assert quote == Quote(m, db, req);
    var spent := Sum(recentCosts);
    if spent + quote.costDelta > DailyLimit {
      return DailyLimitExceeded;
    }
    if user.balance < quote.costDelta {
      return InsufficientBalance;
    }
    outcome := CommitTrade(store, uid, req, quote);
  }

  /** The writes of an accepted trade, in the handler's order. */
  method CommitTrade(store: Store, uid: UserId, req: TradeRequest, quote: Lmsr.BuyQuote)
    returns (outcome: TradeOutcome)
    requires uid in store.users && req.marketId in store.markets && 0 <= req.outcomeIndex < |quote.newQ|
    modifies store
    ensures TradeResult(outcome, store.Snapshot()) == Commit(old(store.Snapshot()), uid, req, quote)
  {
    var user := store.users[uid];
    var market := store.markets[req.marketId];
    store.trades := store.trades + [TradeRow(uid, req.marketId, req.outcomeIndex, req.qty, quote.costDelta)];
    var idx := FindPosition(store.positions, uid, req.marketId);
    var holdings := if idx.Some? then store.positions[idx.value].holdings else [];
    holdings := PadHoldings(holdings, |quote.newQ|);
    holdings := holdings[req.outcomeIndex := holdings[req.outcomeIndex] + req.qty];
    if idx.Some? {
      store.positions := store.positions[idx.value := store.positions[idx.value].(holdings := holdings)];
    } else {
      store.positions := store.positions + [Position(uid, req.marketId, holdings)];
    }
    store.markets := store.markets[req.marketId := market.(q := quote.newQ)];
    var newBalance := user.balance - quote.costDelta;
    store.users := store.users[uid := user.(balance := newBalance)];
    store.events := store.events + [TradeEvent(uid, req.marketId, req.outcomeIndex, req.qty, quote.costDelta)];
    outcome := Traded(newBalance, holdings);
  }
}
