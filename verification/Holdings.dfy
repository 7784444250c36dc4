/** Who owns what: a user's holding of an asset, free and frozen together, changes by their own deposits,
    withdrawals and trades as the events tell of them, and by nothing else, over every run. */
module Holdings {
  import opened Types
  import opened Orders
  import opened Ledger
  import opened Matching
  import opened Settlement
  import opened MatchLoop
  import opened BookInvariant
  import opened VenueInvariant
  import opened Exchange
  import opened ExchangeInvariant

  function Holding(b: Balances, user: Uuid, a: Asset): int
  {
    Get(b, BalanceKey(user, AVAILABLE, a)) + Get(b, BalanceKey(user, FREEZE, a))
  }

  /** What a trade brings a user in an asset.  The buyer gets the base and pays the quote, the seller
      gives the base and gets the quote; each pays its fee from what it gets, unless that is negative. */
  function TradeGain(t: Trade, base: Asset, quote: Asset, lot: int, user: Uuid, a: Asset): int
  {
    (if t.bidUser == user && base == a then t.amount * lot - Max(t.bidFee, 0) else 0)
    - (if t.askUser == user && base == a then t.amount * lot else 0)
    + (if t.askUser == user && quote == a then t.quoteAmount - Max(t.askFee, 0) else 0)
    - (if t.bidUser == user && quote == a then t.quoteAmount else 0)
  }

  /** The base ledger units in one lot, market by market. */
  type Lots = map<MarketName, Pos>

  function Gain(lots: Lots, e: Event, user: Uuid, a: Asset): int
  {
    match e
    case OrderEvent(_, _) => 0
    case TradeEvent(t, base, quote) => TradeGain(t, base, quote, if t.market in lots then lots[t.market] else 1, user, a)
    case FundsEvent(who, asset, change) => if who == user && asset == a then change else 0
  }

  function Gains(lots: Lots, events: seq<Event>, user: Uuid, a: Asset): int
  {
    if events == [] then 0 else Gains(lots, events[..|events| - 1], user, a) + Gain(lots, events[|events| - 1], user, a)
  }

  lemma {:induction false} GainsConcat(lots: Lots, e1: seq<Event>, e2: seq<Event>, user: Uuid, a: Asset)
    ensures Gains(lots, e1 + e2, user, a) == Gains(lots, e1, user, a) + Gains(lots, e2, user, a)
  {
    if e2 == [] {
      assert e1 + e2 == e1;
    } else {
      GainsConcat(lots, e1, e2[..|e2| - 1], user, a);
      assert (e1 + e2)[..|e1 + e2| - 1] == e1 + e2[..|e2| - 1];
    }
  }

  lemma GainsOne(lots: Lots, e: Event, user: Uuid, a: Asset)
    ensures Gains(lots, [e], user, a) == Gain(lots, e, user, a)
  {
    assert [e][..0] == [];
  }

  lemma {:induction false} OrderEventsGainNothing(lots: Lots, events: seq<Event>, user: Uuid, a: Asset)
    requires forall e | e in events :: e.OrderEvent?
    ensures Gains(lots, events, user, a) == 0
  {
    if events != [] {
      assert events[|events| - 1] in events;
      OrderEventsGainNothing(lots, events[..|events| - 1], user, a);
    }
  }

  // ---------------------------------------------------------------- one order

  predicate KnowsLot(lots: Lots, c: MarketConf)
  {
    c.name in lots && lots[c.name] == c.lot
  }

  lemma DealGains(lots: Lots, c: MarketConf, id: nat, taker: Order, maker: Order, d: Deal, user: Uuid, a: Asset)
    requires KnowsLot(lots, c)
    ensures Gains(lots, DealEvents(c, id, taker, maker, d), user, a)
         == TradeGain(MakeTrade(c, id, taker, maker, d), c.base, c.quote, c.lot, user, a)
  {
    var trade := TradeEvent(MakeTrade(c, id, taker, maker, d), c.base, c.quote);
    var maker' := MakerAfterDeal(c, maker, d);
    var update: seq<Event> := if maker'.remain == 0 then [] else [OrderEvent(maker', UPDATE)];
    GainsConcat(lots, [trade], update, user, a);
    GainsOne(lots, trade, user, a);
    OrderEventsGainNothing(lots, update, user, a);
  }

  /** The four updates of a deal move to each user what its trade says. */
  lemma UpdatesFollowTrade(c: MarketConf, id: nat, taker: Order, maker: Order, d: Deal, user: Uuid, a: Asset)
    requires taker.side != maker.side
    ensures var u := DealUpdates(c, taker, maker, d, id);
            ChangeAt(u, BalanceKey(user, AVAILABLE, a)) + ChangeAt(u, BalanceKey(user, FREEZE, a))
            == TradeGain(MakeTrade(c, id, taker, maker, d), c.base, c.quote, c.lot, user, a)
  {
  }

  /** From one state of the loop to another, a user gained in an asset what the events say. */
  ghost predicate GainedFrom(lots: Lots, s: Matched, m: Matched, user: Uuid, a: Asset)
  {
    Holding(m.funds.balances, user, a) - Gains(lots, m.events, user, a)
    == Holding(s.funds.balances, user, a) - Gains(lots, s.events, user, a)
  }

  lemma SettledHolding(f: Funds, u: seq<UpdateParams>, user: Uuid, a: Asset)
    requires |u| == 4 && Unrelated(u) && NoneNegative(f.balances) && Settle(f, u).Ok?
    ensures Holding(Settle(f, u).value.balances, user, a)
         == Holding(f.balances, user, a) + ChangeAt(u, BalanceKey(user, AVAILABLE, a)) + ChangeAt(u, BalanceKey(user, FREEZE, a))
  {
    SettleIffAffordable(f, u);
  }

  lemma AdvanceGains(lots: Lots, c: MarketConf, s: Matched, d: Deal, funds: Funds, user: Uuid, a: Asset)
    requires KnowsLot(lots, c) && s.rest != [] && s.taker.side != s.rest[0].side
    requires var u := DealUpdates(c, s.taker, s.rest[0], d, s.tradeId + 1);
             Holding(funds.balances, user, a) == Holding(s.funds.balances, user, a)
             + ChangeAt(u, BalanceKey(user, AVAILABLE, a)) + ChangeAt(u, BalanceKey(user, FREEZE, a))
    ensures GainedFrom(lots, s, Advance(c, s, d, funds), user, a)
  {
    UpdatesFollowTrade(c, s.tradeId + 1, s.taker, s.rest[0], d, user, a);
    DealGains(lots, c, s.tradeId + 1, s.taker, s.rest[0], d, user, a);
    GainsConcat(lots, s.events, DealEvents(c, s.tradeId + 1, s.taker, s.rest[0], d), user, a);
  }

  lemma TurnGains(lots: Lots, c: MarketConf, s: Matched, limit: int, maxId: nat, user: Uuid, a: Asset)
    requires KnowsLot(lots, c) && LoopOk(c, s, limit, maxId) && Trades(c, s, limit)
    ensures Turn(c, s, limit).Go? && GainedFrom(lots, s, Turn(c, s, limit).next, user, a)
  {
    var u := TurnUpdates(c, s, limit);
    TurnGoes(c, s, limit, maxId);
    TurnSettles(c, s, limit, maxId);
    SettledHolding(s.funds, u, user, a);
    AdvanceGains(lots, c, s, TurnDeal(c, s, limit), Settle(s.funds, u).value, user, a);
  }

  lemma {:induction false} MatchGains(lots: Lots, c: MarketConf, s: Matched, limit: int, maxId: nat, user: Uuid, a: Asset)
    requires KnowsLot(lots, c) && LoopOk(c, s, limit, maxId)
    ensures Match(c, s, limit).Ended? && GainedFrom(lots, s, Match(c, s, limit).s, user, a)
    decreases |s.rest|
  {
    TurnKeepsLoop(c, s, limit, maxId);
    if Turn(c, s, limit).Go? {
      TurnGains(lots, c, s, limit, maxId, user, a);
      MatchGains(lots, c, Turn(c, s, limit).next, limit, maxId, user, a);
    }
  }

  lemma FreezingKeepsHolding(b: Balances, who: Uuid, asset: Asset, amount: int, user: Uuid, a: Asset)
    ensures Holding(Frozen(b, who, asset, amount), user, a) == Holding(b, user, a)
    ensures Holding(Unfrozen(b, who, asset, amount), user, a) == Holding(b, user, a)
  {
  }

  lemma AfterMatchGains(lots: Lots, c: MarketConf, v: Venue, m: Matched, needCancel: bool, user: Uuid, a: Asset)
    ensures var placed := AfterMatch(c, v, m, needCancel);
            Holding(placed.venue.funds.balances, user, a) - Gains(lots, placed.events, user, a)
            == Holding(m.funds.balances, user, a) - Gains(lots, m.events, user, a)
  {
    var finish := [OrderEvent(m.taker, FINISH)];
    FreezingKeepsHolding(m.funds.balances, m.taker.user, PayAsset(c, m.taker.side), WithBacking(c, m.taker).frozen, user, a);
    FinishEventsAreOrders(m.done);
    OrderEventsGainNothing(lots, FinishEvents(m.done), user, a);
    OrderEventsGainNothing(lots, finish, user, a);
    GainsConcat(lots, m.events, FinishEvents(m.done), user, a);
    GainsConcat(lots, m.events + FinishEvents(m.done), finish, user, a);
  }

  lemma ExecuteGains(lots: Lots, c: MarketConf, v: Venue, taker: Order, limit: int, user: Uuid, a: Asset)
    requires KnowsLot(lots, c) && Ready(c, v, taker, limit)
    ensures Execute(c, v, taker, limit).Some?
    ensures var placed := Execute(c, v, taker, limit).value;
            Holding(placed.venue.funds.balances, user, a) == Holding(v.funds.balances, user, a) + Gains(lots, placed.events, user, a)
  {
    StartIsLoopOk(c, v, taker, limit);
    var s := Start(taker, v.book.Side(Opposite(taker.side)), v);
    MatchGains(lots, c, s, limit, taker.id, user, a);
    GainsOne(lots, OrderEvent(taker, PUT), user, a);
    var Ended(m, needCancel) := Match(c, s, limit);
    AfterMatchGains(lots, c, v, m, needCancel, user, a);
  }

  /** What an accepted order changes in anyone's holdings is what its trades say. */
  lemma OrderMovesHoldings(lots: Lots, c: MarketConf, v: Venue, input: OrderInput, who: Uuid, user: Uuid, a: Asset)
    requires KnowsLot(lots, c) && VenueOk(c, v) && Sensible(input) && PutOrder(c, v, input, who).Accepted?
    ensures var placed := PutOrder(c, v, input, who).placed;
            Holding(placed.venue.funds.balances, user, a) == Holding(v.funds.balances, user, a) + Gains(lots, placed.events, user, a)
  {
    AdmittedIsReady(c, v, input, who);
    ExecuteGains(lots, c, NextOrderId(v), NewOrder(c, v.counters.orderId + 1, input, who), QuoteLimit(c, v, input, who), user, a);
  }

  // ---------------------------------------------------------------- any request

  function LotsOf(cfg: Config): Lots
  {
    map n | n in cfg.confs :: cfg.confs[n].lot
  }

  /** A user's holding of an asset changes by what the events bring them. */
  ghost predicate MovesHolding(cfg: Config, e: Exchange, r: Effect, user: Uuid, a: Asset)
  {
    Holding(r.exchange.funds.balances, user, a)
    == Holding(e.funds.balances, user, a) + Gains(LotsOf(cfg), r.events, user, a)
  }

  lemma MovesThenMoves(cfg: Config, e: Exchange, first: Effect, second: Effect, user: Uuid, a: Asset)
    requires MovesHolding(cfg, e, first, user, a) && MovesHolding(cfg, first.exchange, second, user, a)
    ensures MovesHolding(cfg, e, Then(first, second), user, a)
  {
    GainsConcat(LotsOf(cfg), first.events, second.events, user, a);
  }

  lemma {:induction false} FinishAllMovesNothing(c: MarketConf, book: Book, balances: Balances, ids: seq<nat>, user: Uuid, a: Asset)
    ensures var r := FinishAll(c, book, balances, ids);
            Holding(r.1, user, a) == Holding(balances, user, a) && forall e | e in r.2 :: e.OrderEvent?
    decreases |ids|
  {
    if ids != [] {
      match Find(book, ids[0])
      case None => FinishAllMovesNothing(c, book, balances, ids[1..], user, a);
      case Some(o) =>
        var r := Finish(c, book, balances, o);
        FreezingKeepsHolding(balances, o.user, PayAsset(c, o.side), o.frozen, user, a);
        FinishAllMovesNothing(c, r.0, r.1, ids[1..], user, a);
    }
  }

  lemma FinishInMoves(cfg: Config, e: Exchange, n: MarketName, ids: seq<nat>, user: Uuid, a: Asset)
    requires Listed(cfg, e, n)
    ensures MovesHolding(cfg, e, FinishIn(cfg, e, n, ids), user, a)
  {
    FinishAllMovesNothing(cfg.confs[n], e.books[n], e.funds.balances, ids, user, a);
    OrderEventsGainNothing(LotsOf(cfg), FinishIn(cfg, e, n, ids).events, user, a);
  }

  lemma CancelAllMoves(cfg: Config, e: Exchange, who: Uuid, n: MarketName, user: Uuid, a: Asset)
    ensures MovesHolding(cfg, e, CancelAll(cfg, e, who, n), user, a)
  {
    if Listed(cfg, e, n) {
      FinishInMoves(cfg, e, n, IdsOfUser(e.books[n].asks + e.books[n].bids, who), user, a);
    }
  }

  lemma CancelOneMoves(cfg: Config, e: Exchange, who: Uuid, n: MarketName, id: nat, user: Uuid, a: Asset)
    ensures MovesHolding(cfg, e, CancelOne(cfg, e, who, n, id), user, a)
  {
    if Listed(cfg, e, n) {
      FinishInMoves(cfg, e, n, [id], user, a);
    }
  }

  lemma UpdateMoves(cfg: Config, e: Exchange, who: Uuid, asset: Asset, delta: Fixed, business: nat, id: nat, user: Uuid, a: Asset)
    requires ExchangeOk(cfg, e)
    ensures MovesHolding(cfg, e, UpdateBalance(cfg, e, who, asset, delta, business, id), user, a)
  {
    if asset in cfg.assets {
      var change := RoundedChange(cfg.assets[asset], delta);
      UpdateIsExact(e.funds, ChangeParams(who, asset, change, business, id), a);
      GainsOne(LotsOf(cfg), FundsEvent(who, asset, change), user, a);
    }
  }

  lemma PutOneMoves(cfg: Config, e: Exchange, who: Uuid, put: PutRequest, user: Uuid, a: Asset)
    requires ExchangeOk(cfg, e) && Sensible(put.input)
    ensures MovesHolding(cfg, e, PutOne(cfg, e, who, put), user, a)
  {
    var n := put.market;
    if Listed(cfg, e, n) && PutOrder(cfg.confs[n], VenueOf(e, n), put.input, who).Accepted? {
      VenueOfIsOk(cfg, e, n);
      OrderMovesHoldings(LotsOf(cfg), cfg.confs[n], VenueOf(e, n), put.input, who, user, a);
    }
  }

  lemma {:induction false} ResetAllMoves(cfg: Config, e: Exchange, who: Uuid, n: MarketName, orders: seq<PutRequest>, user: Uuid, a: Asset)
    ensures MovesHolding(cfg, e, ResetAll(cfg, e, who, n, orders), user, a)
    decreases |orders|
  {
    if orders != [] && orders[0].market == n {
      var first := CancelAll(cfg, e, who, n);
      CancelAllMoves(cfg, e, who, n, user, a);
      ResetAllMoves(cfg, first.exchange, who, n, orders[1..], user, a);
      MovesThenMoves(cfg, e, first, ResetAll(cfg, first.exchange, who, n, orders[1..]), user, a);
    }
  }

  lemma {:induction false} PutAllMoves(cfg: Config, e: Exchange, who: Uuid, n: MarketName, orders: seq<PutRequest>, user: Uuid, a: Asset)
    requires ExchangeOk(cfg, e) && forall p | p in orders :: Sensible(p.input)
    ensures MovesHolding(cfg, e, PutAll(cfg, e, who, n, orders), user, a)
    decreases |orders|
  {
    if orders != [] && orders[0].market == n {
      var first := PutOne(cfg, e, who, orders[0]);
      PutOneMoves(cfg, e, who, orders[0], user, a);
      PutOneIsSound(cfg, e, who, orders[0]);
      if first.response == Accept {
        PutAllMoves(cfg, first.exchange, who, n, orders[1..], user, a);
        MovesThenMoves(cfg, e, first, PutAll(cfg, first.exchange, who, n, orders[1..]), user, a);
      }
    }
  }

  lemma BatchMoves(cfg: Config, e: Exchange, who: Uuid, n: MarketName, reset: bool, orders: seq<PutRequest>, user: Uuid, a: Asset)
    requires ExchangeOk(cfg, e) && forall p | p in orders :: Sensible(p.input)
    ensures MovesHolding(cfg, e, PutBatch(cfg, e, who, n, reset, orders), user, a)
  {
    if Listed(cfg, e, n) {
      var first := if reset then ResetAll(cfg, e, who, n, orders) else Effect(e, Accept, []);
      ResetAllMoves(cfg, e, who, n, orders, user, a);
      ResetAllIsSound(cfg, e, who, n, orders);
      if first.response == Accept {
        PutAllMoves(cfg, first.exchange, who, n, orders, user, a);
        MovesThenMoves(cfg, e, first, PutAll(cfg, first.exchange, who, n, orders), user, a);
      }
    }
  }

  /** Whatever a request does, each user's holdings change by what its events bring them. */
  lemma RequestMovesHoldings(cfg: Config, e: Exchange, who: Uuid, r: Request, user: Uuid, a: Asset)
    requires ExchangeOk(cfg, e) && SensibleRequest(r)
    ensures MovesHolding(cfg, e, Exec(cfg, e, who, r), user, a)
  {
    match r
    case BalanceUpdate(asset, delta, business, id) => UpdateMoves(cfg, e, who, asset, delta, business, id, user, a);
    case OrderPut(put) => PutOneMoves(cfg, e, who, put, user, a);
    case BatchOrderPut(n, reset, orders) => BatchMoves(cfg, e, who, n, reset, orders, user, a);
    case OrderCancel(n, id) => CancelOneMoves(cfg, e, who, n, id, user, a);
    case OrderCancelAll(n) => CancelAllMoves(cfg, e, who, n, user, a);
  }

  // ---------------------------------------------------------------- whole runs

  /** Over every run, what a user holds of an asset, free and frozen, is what their own deposits,
      withdrawals and trades in the journal add up to. */
  lemma {:induction false} HoldingsAreOwn(cfg: Config, w: World, inputs: seq<Input>, user: Uuid, a: Asset)
    requires WorldOk(cfg, w) && Holding(w.exchange.funds.balances, user, a) == Gains(LotsOf(cfg), w.journal, user, a)
    requires forall i | i in inputs && i.Serve? :: SensibleRequest(i.request)
    ensures var w' := Run(cfg, w, inputs);
            Holding(w'.exchange.funds.balances, user, a) == Gains(LotsOf(cfg), w'.journal, user, a)
    decreases |inputs|
  {
    if inputs != [] {
      var i := inputs[0];
      NextIsOk(cfg, w, i);
      if i.Serve? && i.available {
        RequestMovesHoldings(cfg, w.exchange, i.user, i.request, user, a);
        GainsConcat(LotsOf(cfg), w.journal, Exec(cfg, w.exchange, i.user, i.request).events, user, a);
      }
      HoldingsAreOwn(cfg, Next(cfg, w, i), inputs[1..], user, a);
    }
  }

  /** From the empty start. */
  lemma HoldingsFromGenesis(cfg: Config, inputs: seq<Input>, user: Uuid, a: Asset)
    requires SafeConfig(cfg) && forall i | i in inputs && i.Serve? :: SensibleRequest(i.request)
    ensures var w := Run(cfg, Genesis(cfg), inputs);
            Holding(w.exchange.funds.balances, user, a) == Gains(LotsOf(cfg), w.journal, user, a)
  {
    GenesisIsOk(cfg);
    HoldingsAreOwn(cfg, Genesis(cfg), inputs, user, a);
  }
}
