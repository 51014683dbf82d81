/**
 * The database tables the two API handlers read and write, as in-memory
 * maps and sequences. Users are keyed by their authentication id and
 * markets by their id; positions, trades, resolutions, reputation records
 * and events are kept in insertion order.
 */
module Tables {
  import opened Common

  type UserId = string
  type MarketId = string

  datatype User = User(username: string, balance: real, reputation: real, reputationCount: nat)

  datatype Market = Market(q: seq<real>, b: real, status: string)

  datatype Position = Position(userId: UserId, marketId: MarketId, holdings: seq<real>)

  datatype TradeRow = TradeRow(userId: UserId, marketId: MarketId, outcomeIndex: int, qty: real, cost: real)

  datatype Resolution = Resolution(marketId: MarketId, outcomeIndex: int)

  datatype ReputationRecord = ReputationRecord(userId: UserId, marketId: MarketId, brierScore: real, delta: real)

  datatype Event =
    | TradeEvent(user: UserId, market: MarketId, outcomeIndex: int, qty: real, cost: real)
    | MarketResolved(marketId: MarketId, outcomeIndex: int)

  datatype Db = Db(
    users: map<UserId, User>,
    markets: map<MarketId, Market>,
    positions: seq<Position>,
    trades: seq<TradeRow>,
    resolutions: seq<Resolution>,
    reputationRecords: seq<ReputationRecord>,
    events: seq<Event>)

  /** Index of the first position of the user in the market, if any. */
  function FindPosition(positions: seq<Position>, userId: UserId, marketId: MarketId): (r: Option<nat>)
    ensures r.Some? ==> (r.value < |positions|
      && positions[r.value].userId == userId && positions[r.value].marketId == marketId)
    ensures r.Some? ==> forall j :: 0 <= j < r.value ==>
      !(positions[j].userId == userId && positions[j].marketId == marketId)
    ensures r.None? <==> forall j :: 0 <= j < |positions| ==>
      !(positions[j].userId == userId && positions[j].marketId == marketId)
    decreases |positions|
  {
    if positions == [] then None
    else if positions[0].userId == userId && positions[0].marketId == marketId then Some(0)
    else
      match FindPosition(positions[1..], userId, marketId)
      case None => None
      case Some(i) => Some(i + 1)
  }

  /** At most one position row per (user, market). */
  ghost predicate UniquePositions(positions: seq<Position>)
  {
    forall i, j :: 0 <= i < j < |positions| ==>
      !(positions[i].userId == positions[j].userId && positions[i].marketId == positions[j].marketId)
  }

  /** Every market has a positive liquidity parameter. */
  ghost predicate ValidMarkets(markets: map<MarketId, Market>)
  {
    forall id :: id in markets ==> markets[id].b > 0.0
  }

  ghost predicate ValidDb(db: Db)
  {
    ValidMarkets(db.markets) && UniquePositions(db.positions)
  }

  /** The whole database held as mutable tables. */
  class Store {
    var users: map<UserId, User>
    var markets: map<MarketId, Market>
    var positions: seq<Position>
    var trades: seq<TradeRow>
    var resolutions: seq<Resolution>
    var reputationRecords: seq<ReputationRecord>
    var events: seq<Event>

    function Snapshot(): Db
      reads this
    {
      Db(users, markets, positions, trades, resolutions, reputationRecords, events)
    }

    ghost predicate Valid()
      reads this
    {
      ValidDb(Snapshot())
    }

    constructor (users: map<UserId, User>, markets: map<MarketId, Market>)
      requires ValidMarkets(markets)
      ensures Snapshot() == Db(users, markets, [], [], [], [], [])
      ensures Valid()
    {
      this.users := users;
      this.markets := markets;
      positions := [];
      trades := [];
      resolutions := [];
      reputationRecords := [];
      events := [];
    }
  }
}
