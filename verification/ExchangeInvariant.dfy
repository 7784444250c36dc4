/** Over every run of the exchange, from its empty start, through any requests by any users, served or
    not, with cached keys expiring at any time: it never panics, it stays solvent, no balance goes
    negative, books stay sorted and uncrossed, and nothing but fees ever leaves the ledger. */
module ExchangeInvariant {
  import opened Types
  import opened Orders
  import opened Ledger
  import opened Matching
  import opened MatchLoop
  import opened BookInvariant
  import opened VenueInvariant
  import opened Exchange
  import Sums

  ghost function FrozenWeight(cfg: Config, user: Uuid, a: Asset): (MarketName, Book) -> int
  {
    (n: MarketName, b: Book) => if n in cfg.confs then BookFrozen(cfg.confs[n], b, user, a) else 0
  }

  /** What a user's open orders over all markets have frozen in an asset. */
  ghost function FrozenTotal(cfg: Config, books: map<MarketName, Book>, user: Uuid, a: Asset): int
  {
    Sums.Sum(books, FrozenWeight(cfg, user, a))
  }

  ghost predicate SafeConfig(cfg: Config)
  {
    forall n | n in cfg.confs :: cfg.confs[n].name == n && SafeConf(cfg.confs[n]) && cfg.confs[n].disableSelfTrade
  }

  ghost predicate BooksOk(cfg: Config, e: Exchange)
  {
    && e.books.Keys == cfg.confs.Keys
    && (forall n | n in e.books :: BookOk(cfg.confs[n], e.books[n], e.counters.orderId))
    && (forall n, m | n in e.books && m in e.books && n != m :: BookIds(e.books[n]) !! BookIds(e.books[m]))
  }

  /** Frozen funds are exactly what the open orders need, and nobody owes anything. */
  ghost predicate Solvent(cfg: Config, e: Exchange)
  {
    && NoneNegative(e.funds.balances)
    && forall user, a :: Get(e.funds.balances, BalanceKey(user, FREEZE, a)) == FrozenTotal(cfg, e.books, user, a)
  }

  ghost predicate WithinLimit(cfg: Config, e: Exchange)
  {
    forall user :: OpenOrders(e.books, user) <= cfg.userOrderLimit
  }

  ghost predicate ExchangeOk(cfg: Config, e: Exchange)
  {
    && SafeConfig(cfg) && BooksOk(cfg, e) && Solvent(cfg, e) && WithinLimit(cfg, e)
    && TradeIdsUpTo(e.funds.cache, e.counters.tradeId)
  }

  predicate SensibleRequest(r: Request)
  {
    match r
    case OrderPut(put) => Sensible(put.input)
    case BatchOrderPut(_, _, orders) => forall p | p in orders :: Sensible(p.input)
    case _ => true
  }

  /** Deposits and withdrawals less the fees charged, in an asset. */
  function FlowIn(e: Event, a: Asset): int
  {
    match e
    case FundsEvent(_, asset, change) => if asset == a then change else 0
    case _ => -FeesIn(e, a)
  }

  function NetFlow(events: seq<Event>, a: Asset): int
  {
    if events == [] then 0 else NetFlow(events[..|events| - 1], a) + FlowIn(events[|events| - 1], a)
  }

  lemma {:induction false} NetFlowConcat(e1: seq<Event>, e2: seq<Event>, a: Asset)
    ensures NetFlow(e1 + e2, a) == NetFlow(e1, a) + NetFlow(e2, a)
  {
    if e2 == [] {
      assert e1 + e2 == e1;
    } else {
      NetFlowConcat(e1, e2[..|e2| - 1], a);
      assert (e1 + e2)[..|e1 + e2| - 1] == e1 + e2[..|e2| - 1];
    }
  }

  // ---------------------------------------------------------------- one market's operation, seen by all

  lemma VenueOfIsOk(cfg: Config, e: Exchange, n: MarketName)
    requires ExchangeOk(cfg, e) && n in e.books
    ensures VenueOk(cfg.confs[n], VenueOf(e, n))
  {
    forall user, a
      ensures BookFrozen(cfg.confs[n], e.books[n], user, a) <= Get(e.funds.balances, BalanceKey(user, FREEZE, a))
    {
      forall m | m in e.books
        ensures 0 <= FrozenWeight(cfg, user, a)(m, e.books[m])
      {
        BookFrozenNonNegative(cfg.confs[m], e.books[m], e.counters.orderId, user, a);
      }
      Sums.SumAtLeast(e.books, n, FrozenWeight(cfg, user, a));
    }
  }

  lemma BookFrozenNonNegative(c: MarketConf, b: Book, maxId: nat, user: Uuid, a: Asset)
    requires BookOk(c, b, maxId)
    ensures 0 <= BookFrozen(c, b, user, a)
  {
    SideFrozenNonNegative(c, ASK, b.asks, maxId);
    SideFrozenNonNegative(c, BID, b.bids, maxId);
    FrozenNonNegative(b.asks, user);
    FrozenNonNegative(b.bids, user);
  }

  lemma BookOkLater(c: MarketConf, b: Book, maxId: nat, later: nat)
    requires BookOk(c, b, maxId) && maxId <= later
    ensures BookOk(c, b, later)
  {
  }

  lemma BookIdsUpTo(c: MarketConf, b: Book, maxId: nat)
    requires BookOk(c, b, maxId)
    ensures forall id | id in BookIds(b) :: id <= maxId
  {
    assert forall i | 0 <= i < |b.asks| :: Working(c, ASK, b.asks[i], maxId);
    assert forall i | 0 <= i < |b.bids| :: Working(c, BID, b.bids[i], maxId);
  }

  lemma OtherBooksUndisturbed(cfg: Config, e: Exchange, n: MarketName, v: Venue)
    requires ExchangeOk(cfg, e) && n in e.books && KeepsVenue(cfg.confs[n], VenueOf(e, n), v)
    ensures BooksOk(cfg, WithVenue(e, n, v))
  {
    var e' := WithVenue(e, n, v);
    forall m | m in e'.books
      ensures BookOk(cfg.confs[m], e'.books[m], v.counters.orderId)
      ensures m != n ==> BookIds(e'.books[m]) !! BookIds(v.book)
    {
      if m != n {
        BookOkLater(cfg.confs[m], e.books[m], e.counters.orderId, v.counters.orderId);
        BookIdsUpTo(cfg.confs[m], e.books[m], e.counters.orderId);
      }
    }
  }

  lemma StillSolvent(cfg: Config, e: Exchange, n: MarketName, v: Venue)
    requires ExchangeOk(cfg, e) && n in e.books && KeepsVenue(cfg.confs[n], VenueOf(e, n), v)
    ensures Solvent(cfg, WithVenue(e, n, v))
  {
    var e' := WithVenue(e, n, v);
    forall user, a
      ensures Get(e'.funds.balances, BalanceKey(user, FREEZE, a)) == FrozenTotal(cfg, e'.books, user, a)
    {
      Sums.SumUpdate(e.books, n, v.book, FrozenWeight(cfg, user, a));
    }
  }

  lemma OpenOrdersAfter(e: Exchange, n: MarketName, v: Venue, user: Uuid)
    requires n in e.books
    ensures OpenOrders(WithVenue(e, n, v).books, user) == OpenOrders(e.books, user) - BookCount(e.books[n], user) + BookCount(v.book, user)
  {
    Sums.SumUpdate(e.books, n, v.book, CountWeight(user));
  }

  lemma WithVenueIsOk(cfg: Config, e: Exchange, n: MarketName, v: Venue, mayAdd: Option<Uuid>)
    requires ExchangeOk(cfg, e) && n in e.books && KeepsVenue(cfg.confs[n], VenueOf(e, n), v)
    requires forall user :: BookCount(v.book, user) <= BookCount(e.books[n], user) + if mayAdd.Some? && mayAdd.value == user then 1 else 0
    requires mayAdd.Some? ==> OpenOrders(e.books, mayAdd.value) != cfg.userOrderLimit
    ensures ExchangeOk(cfg, WithVenue(e, n, v))
  {
    OtherBooksUndisturbed(cfg, e, n, v);
    StillSolvent(cfg, e, n, v);
    forall user
      ensures OpenOrders(WithVenue(e, n, v).books, user) <= cfg.userOrderLimit
    {
      OpenOrdersAfter(e, n, v, user);
    }
  }

  // ---------------------------------------------------------------- each request

  /** The effect keeps the invariant, does not crash, and accounts for every unit of every asset. */
  ghost predicate Sound(cfg: Config, e: Exchange, r: Effect)
  {
    && ExchangeOk(cfg, r.exchange) && r.response != Crash
    && r.exchange.counters.operationLogId == e.counters.operationLogId
    && forall a :: Total(r.exchange.funds.balances, a) == Total(e.funds.balances, a) + NetFlow(r.events, a)
  }

  lemma UpdateBalanceIsSound(cfg: Config, e: Exchange, user: Uuid, asset: Asset, delta: Fixed, business: nat, id: nat)
    requires ExchangeOk(cfg, e)
    ensures Sound(cfg, e, UpdateBalance(cfg, e, user, asset, delta, business, id))
  {
    var r := UpdateBalance(cfg, e, user, asset, delta, business, id);
    if r.response == Accept {
      var change := RoundedChange(cfg.assets[asset], delta);
      forall a
        ensures Total(r.exchange.funds.balances, a) == Total(e.funds.balances, a) + NetFlow(r.events, a)
      {
        UpdateIsExact(e.funds, ChangeParams(user, asset, change, business, id), a);
        assert [FundsEvent(user, asset, change)][..0] == [];
      }
      UpdateIsExact(e.funds, ChangeParams(user, asset, change, business, id), asset);
    }
  }

  lemma {:induction false} TradeFlow(events: seq<Event>, a: Asset)
    requires forall e | e in events :: !e.FundsEvent?
    ensures NetFlow(events, a) == -FeesCharged(events, a)
  {
    if events != [] {
      TradeFlow(events[..|events| - 1], a);
    }
  }

  lemma {:induction false} MatchEventsAreTrades(c: MarketConf, s: Matched, limit: int)
    requires forall e | e in s.events :: !e.FundsEvent?
    ensures Match(c, s, limit).Ended? ==> forall e | e in Match(c, s, limit).s.events :: !e.FundsEvent?
    decreases |s.rest|
  {
    if Turn(c, s, limit).Go? {
      MatchEventsAreTrades(c, Turn(c, s, limit).next, limit);
    }
  }

  lemma {:induction false} FinishEventsAreOrders(done: seq<Order>)
    ensures forall e | e in FinishEvents(done) :: e.OrderEvent?
  {
    if done != [] {
      FinishEventsAreOrders(done[..|done| - 1]);
    }
  }

  lemma ExecuteEventsAreTrades(c: MarketConf, v: Venue, taker: Order, limit: int)
    ensures Execute(c, v, taker, limit).Some? ==> forall e | e in Execute(c, v, taker, limit).value.events :: !e.FundsEvent?
  {
    var s := Start(taker, v.book.Side(Opposite(taker.side)), v);
    MatchEventsAreTrades(c, s, limit);
    if Match(c, s, limit).Ended? {
      FinishEventsAreOrders(Match(c, s, limit).s.done);
    }
  }

  lemma PutEventsAreTrades(c: MarketConf, v: Venue, input: OrderInput, user: Uuid)
    requires PutOrder(c, v, input, user).Accepted?
    ensures forall e | e in PutOrder(c, v, input, user).placed.events :: !e.FundsEvent?
  {
    ExecuteEventsAreTrades(c, NextOrderId(v), NewOrder(c, v.counters.orderId + 1, input, user), QuoteLimit(c, v, input, user));
  }

  lemma PutFlow(c: MarketConf, v: Venue, input: OrderInput, user: Uuid, a: Asset)
    requires VenueOk(c, v) && Sensible(input) && PutOrder(c, v, input, user).Accepted?
    ensures var placed := PutOrder(c, v, input, user).placed;
            Total(placed.venue.funds.balances, a) == Total(v.funds.balances, a) + NetFlow(placed.events, a)
  {
    PutOrderIsSafe(c, v, input, user);
    PutEventsAreTrades(c, v, input, user);
    TradeFlow(PutOrder(c, v, input, user).placed.events, a);
  }

  lemma PlacedIsSound(cfg: Config, e: Exchange, user: Uuid, n: MarketName, placed: Placed)
    requires ExchangeOk(cfg, e) && n in e.books && OpenOrders(e.books, user) != cfg.userOrderLimit
    requires KeepsVenue(cfg.confs[n], VenueOf(e, n), placed.venue)
    requires forall other :: BookCount(placed.venue.book, other) <= BookCount(e.books[n], other) + if other == user then 1 else 0
    requires forall a :: Total(placed.venue.funds.balances, a) == Total(e.funds.balances, a) + NetFlow(placed.events, a)
    ensures Sound(cfg, e, Effect(WithVenue(e, n, placed.venue), Accept, placed.events))
  {
    WithVenueIsOk(cfg, e, n, placed.venue, Some(user));
  }

  lemma PutOneIsSound(cfg: Config, e: Exchange, user: Uuid, put: PutRequest)
    requires ExchangeOk(cfg, e) && Sensible(put.input)
    ensures Sound(cfg, e, PutOne(cfg, e, user, put))
  {
    var n := put.market;
    if Listed(cfg, e, n) && OpenOrders(e.books, user) != cfg.userOrderLimit {
      var c, v := cfg.confs[n], VenueOf(e, n);
      VenueOfIsOk(cfg, e, n);
      PutOrderIsSafe(c, v, put.input, user);
      var r := PutOrder(c, v, put.input, user);
      if r.Accepted? {
        forall a
          ensures Total(r.placed.venue.funds.balances, a) == Total(e.funds.balances, a) + NetFlow(r.placed.events, a)
        {
          PutFlow(c, v, put.input, user, a);
        }
        PlacedIsSound(cfg, e, user, n, r.placed);
      }
    }
  }

  lemma KeepsTwice(c: MarketConf, v: Venue, v1: Venue, v2: Venue)
    requires KeepsVenue(c, v, v1) && KeepsVenue(c, v1, v2) && v1.counters == v.counters
    ensures KeepsVenue(c, v, v2)
  {
    forall user, a
      ensures Get(v2.funds.balances, BalanceKey(user, FREEZE, a)) - Get(v.funds.balances, BalanceKey(user, FREEZE, a))
           == BookFrozen(c, v2.book, user, a) - BookFrozen(c, v.book, user, a)
    {
      assert Get(v1.funds.balances, BalanceKey(user, FREEZE, a)) - Get(v.funds.balances, BalanceKey(user, FREEZE, a))
          == BookFrozen(c, v1.book, user, a) - BookFrozen(c, v.book, user, a);
    }
  }

  /** Finishing any list of orders keeps the venue, moves no asset between users, and tells of it. */
  lemma {:induction false} FinishAllIsSafe(c: MarketConf, v: Venue, ids: seq<nat>)
    requires VenueOk(c, v)
    ensures var (book, balances, events) := FinishAll(c, v.book, v.funds.balances, ids);
            && KeepsVenue(c, v, Venue(book, v.funds.(balances := balances), v.counters))
            && (forall a :: Total(balances, a) == Total(v.funds.balances, a))
            && (forall user :: BookCount(book, user) <= BookCount(v.book, user))
            && (forall e | e in events :: e.OrderEvent? && e.step == FINISH)
    decreases |ids|
  {
    if ids != [] {
      if Find(v.book, ids[0]).Some? {
        FinishFoundIsSafe(c, v, ids[0]);
        var (book1, balances1) := Finish(c, v.book, v.funds.balances, Find(v.book, ids[0]).value);
        var v1 := Venue(book1, v.funds.(balances := balances1), v.counters);
        KeepsMeansOk(c, v, v1);
        FinishAllIsSafe(c, v1, ids[1..]);
        var (book2, balances2, events) := FinishAll(c, book1, balances1, ids[1..]);
        KeepsTwice(c, v, v1, Venue(book2, v.funds.(balances := balances2), v.counters));
      } else {
        FinishAllIsSafe(c, v, ids[1..]);
      }
    } else {
      assert BookIds(v.book) <= BookIds(v.book) + {v.counters.orderId + 1};
    }
  }

  lemma {:induction false} OrderEventsFlowNothing(events: seq<Event>, a: Asset)
    requires forall e | e in events :: e.OrderEvent?
    ensures NetFlow(events, a) == 0
  {
    if events != [] {
      OrderEventsFlowNothing(events[..|events| - 1], a);
    }
  }

  lemma FinishedIsSound(cfg: Config, e: Exchange, n: MarketName, book: Book, balances: Balances, events: seq<Event>)
    requires ExchangeOk(cfg, e) && n in e.books
    requires KeepsVenue(cfg.confs[n], VenueOf(e, n), Venue(book, e.funds.(balances := balances), e.counters))
    requires forall user :: BookCount(book, user) <= BookCount(e.books[n], user)
    requires forall a :: Total(balances, a) == Total(e.funds.balances, a)
    requires forall ev | ev in events :: ev.OrderEvent? && ev.step == FINISH
    ensures Sound(cfg, e, Effect(WithVenue(e, n, Venue(book, e.funds.(balances := balances), e.counters)), Accept, events))
  {
    WithVenueIsOk(cfg, e, n, Venue(book, e.funds.(balances := balances), e.counters), None);
    forall a
      ensures Total(balances, a) == Total(e.funds.balances, a) + NetFlow(events, a)
    {
      OrderEventsFlowNothing(events, a);
    }
  }

  lemma FinishInIsSound(cfg: Config, e: Exchange, n: MarketName, ids: seq<nat>)
    requires ExchangeOk(cfg, e) && Listed(cfg, e, n)
    ensures Sound(cfg, e, FinishIn(cfg, e, n, ids))
  {
    VenueOfIsOk(cfg, e, n);
    FinishAllIsSafe(cfg.confs[n], VenueOf(e, n), ids);
    var (book, balances, events) := FinishAll(cfg.confs[n], e.books[n], e.funds.balances, ids);
    FinishedIsSound(cfg, e, n, book, balances, events);
  }

  lemma SoundThenSound(cfg: Config, e: Exchange, first: Effect, second: Effect)
    requires Sound(cfg, e, first) && Sound(cfg, first.exchange, second)
    ensures Sound(cfg, e, Then(first, second))
  {
    forall a
      ensures Total(second.exchange.funds.balances, a) == Total(e.funds.balances, a) + NetFlow(first.events + second.events, a)
    {
      NetFlowConcat(first.events, second.events, a);
      assert Total(first.exchange.funds.balances, a) == Total(e.funds.balances, a) + NetFlow(first.events, a);
    }
  }

  lemma NothingIsSound(cfg: Config, e: Exchange, response: Response)
    requires ExchangeOk(cfg, e) && response != Crash
    ensures Sound(cfg, e, Effect(e, response, []))
  {
  }

  lemma CancelAllIsSound(cfg: Config, e: Exchange, user: Uuid, n: MarketName)
    requires ExchangeOk(cfg, e)
    ensures Sound(cfg, e, CancelAll(cfg, e, user, n))
  {
    if Listed(cfg, e, n) {
      FinishInIsSound(cfg, e, n, IdsOfUser(e.books[n].asks + e.books[n].bids, user));
    }
  }

  lemma {:induction false} ResetAllIsSound(cfg: Config, e: Exchange, user: Uuid, n: MarketName, orders: seq<PutRequest>)
    requires ExchangeOk(cfg, e)
    ensures Sound(cfg, e, ResetAll(cfg, e, user, n, orders))
    decreases |orders|
  {
    if orders == [] || orders[0].market != n {
      NothingIsSound(cfg, e, Accept);
    } else {
      var first := CancelAll(cfg, e, user, n);
      CancelAllIsSound(cfg, e, user, n);
      ResetAllIsSound(cfg, first.exchange, user, n, orders[1..]);
      SoundThenSound(cfg, e, first, ResetAll(cfg, first.exchange, user, n, orders[1..]));
    }
  }

  lemma {:induction false} PutAllIsSound(cfg: Config, e: Exchange, user: Uuid, n: MarketName, orders: seq<PutRequest>)
    requires ExchangeOk(cfg, e) && forall p | p in orders :: Sensible(p.input)
    ensures Sound(cfg, e, PutAll(cfg, e, user, n, orders))
    decreases |orders|
  {
    if orders == [] || orders[0].market != n {
      NothingIsSound(cfg, e, Accept);
    } else {
      var first := PutOne(cfg, e, user, orders[0]);
      PutOneIsSound(cfg, e, user, orders[0]);
      if first.response == Accept {
        PutAllIsSound(cfg, first.exchange, user, n, orders[1..]);
        SoundThenSound(cfg, e, first, PutAll(cfg, first.exchange, user, n, orders[1..]));
      }
    }
  }

  /** Every request keeps the exchange sound. */
  lemma ExecIsSound(cfg: Config, e: Exchange, user: Uuid, r: Request)
    requires ExchangeOk(cfg, e) && SensibleRequest(r)
    ensures Sound(cfg, e, Exec(cfg, e, user, r))
  {
    match r
    case BalanceUpdate(asset, delta, business, id) =>
      UpdateBalanceIsSound(cfg, e, user, asset, delta, business, id);
    case OrderPut(put) =>
      PutOneIsSound(cfg, e, user, put);
    case BatchOrderPut(n, reset, orders) =>
      if Listed(cfg, e, n) {
        var first := if reset then ResetAll(cfg, e, user, n, orders) else Effect(e, Accept, []);
        ResetAllIsSound(cfg, e, user, n, orders);
        NothingIsSound(cfg, e, Accept);
        if first.response == Accept {
          PutAllIsSound(cfg, first.exchange, user, n, orders);
          SoundThenSound(cfg, e, first, PutAll(cfg, first.exchange, user, n, orders));
        }
      }
    case OrderCancel(n, id) =>
      if Listed(cfg, e, n) {
        FinishInIsSound(cfg, e, n, [id]);
      }
    case OrderCancelAll(n) =>
      CancelAllIsSound(cfg, e, user, n);
  }

  // ---------------------------------------------------------------- whole runs

  ghost predicate WorldOk(cfg: Config, w: World)
  {
    && ExchangeOk(cfg, w.exchange)
    && !w.crashed
    && forall a :: Total(w.exchange.funds.balances, a) == NetFlow(w.journal, a)
  }

  lemma NextIsOk(cfg: Config, w: World, i: Input)
    requires WorldOk(cfg, w) && (i.Serve? ==> SensibleRequest(i.request))
    ensures WorldOk(cfg, Next(cfg, w, i))
  {
    if i.Serve? && i.available {
      var r := Exec(cfg, w.exchange, i.user, i.request);
      ExecIsSound(cfg, w.exchange, i.user, i.request);
      forall a
        ensures Total(r.exchange.funds.balances, a) == NetFlow(w.journal + r.events, a)
      {
        NetFlowConcat(w.journal, r.events, a);
        assert Total(w.exchange.funds.balances, a) == NetFlow(w.journal, a);
      }
    }
  }

  lemma GenesisIsOk(cfg: Config)
    requires SafeConfig(cfg)
    ensures WorldOk(cfg, Genesis(cfg))
  {
    var e := Genesis(cfg).exchange;
    forall user, a
      ensures FrozenTotal(cfg, e.books, user, a) == 0
    {
      SumOfZeros(e.books, FrozenWeight(cfg, user, a));
    }
    forall user
      ensures OpenOrders(e.books, user) == 0
    {
      SumOfZeros(e.books, CountWeight(user));
    }
  }

  lemma {:induction false} SumOfZeros<K, V>(m: map<K, V>, weight: (K, V) -> int)
    requires forall k | k in m :: weight(k, m[k]) == 0
    ensures Sums.Sum(m, weight) == 0
    decreases |m|
  {
    if m != map[] {
      var k :| k in m;
      Sums.SumTakeOut(m, k, weight);
      SumOfZeros(m - {k}, weight);
    }
  }

  /** In every reachable state: no panic ever happened, frozen funds are exactly what the open orders
      need, no balance is negative, the books are sound and uncrossed, ids are unique, no user has
      too many open orders, and each asset's holdings are deposits less withdrawals less fees. */
  lemma {:induction false} EveryRunIsOk(cfg: Config, w: World, inputs: seq<Input>)
    requires WorldOk(cfg, w)
    requires forall i | i in inputs && i.Serve? :: SensibleRequest(i.request)
    ensures WorldOk(cfg, Run(cfg, w, inputs))
    decreases |inputs|
  {
    if inputs != [] {
      NextIsOk(cfg, w, inputs[0]);
      EveryRunIsOk(cfg, Next(cfg, w, inputs[0]), inputs[1..]);
    }
  }
}
