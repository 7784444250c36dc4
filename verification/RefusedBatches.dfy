/** Requests that are refused are not logged.  All but some batches leave the exchange as it was;
    this is exactly which batches do not. */
module RefusedBatches {
  import opened Types
  import opened Orders
  import opened Ledger
  import opened Matching
  import opened BookInvariant
  import opened VenueInvariant
  import opened Exchange
  import opened ExchangeInvariant
  import T = TraceOfRuns
  import Trace

  /** If this request is refused, it is refused before it has changed anything: a batch that fails at
      its first order, or one whose reset had nothing to cancel. */
  predicate LeavesNoTrace(cfg: Config, e: Exchange, user: Uuid, r: Request)
  {
    match r
    case BatchOrderPut(n, reset, orders) =>
      !Listed(cfg, e, n) || orders == [] || orders[0].market != n || (reset && BookCount(e.books[n], user) == 0)
    case _ => true
  }

  // ---------------------------------------------------------------- batches that reset

  lemma UserIds(c: MarketConf, b: Book, maxId: nat, user: Uuid)
    requires BookOk(c, b, maxId)
    ensures |IdsOfUser(b.asks + b.bids, user)| == BookCount(b, user)
    ensures forall id | id in IdsOfUser(b.asks + b.bids, user) :: id in BookIds(b)
  {
    var all := b.asks + b.bids;
    assert DistinctIds(all);
    IdsOfUserAscend(all, user);
    FrozenOfConcat(b.asks, b.bids, user);
    forall id | id in IdsOfUser(all, user)
      ensures id in BookIds(b)
    {
      assert IsOfUser(all, user, id);
      OfUserInParts(b.asks, b.bids, user, id);
    }
  }

  /** Cancelling all orders of a user who has none does nothing. */
  lemma CancelNone(cfg: Config, e: Exchange, user: Uuid, n: MarketName)
    requires ExchangeOk(cfg, e) && Listed(cfg, e, n) && BookCount(e.books[n], user) == 0
    ensures CancelAll(cfg, e, user, n) == Effect(e, Accept, [])
  {
    UserIds(cfg.confs[n], e.books[n], e.counters.orderId, user);
    assert e.books[n := e.books[n]] == e.books;
  }

  lemma {:induction false} ResetNone(cfg: Config, e: Exchange, user: Uuid, n: MarketName, orders: seq<PutRequest>)
    requires ExchangeOk(cfg, e) && Listed(cfg, e, n) && BookCount(e.books[n], user) == 0
    ensures var r := ResetAll(cfg, e, user, n, orders); r.exchange == e && r.events == []
    decreases |orders|
  {
    if orders != [] && orders[0].market == n {
      CancelNone(cfg, e, user, n);
      ResetNone(cfg, e, user, n, orders[1..]);
    }
  }

  /** Finishing orders takes them, and nothing else, out of the book. */
  lemma {:induction false} FinishAllTakesOut(c: MarketConf, v: Venue, ids: seq<nat>)
    requires VenueOk(c, v)
    ensures var book := FinishAll(c, v.book, v.funds.balances, ids).0;
            BookIds(book) <= BookIds(v.book) && forall id | id in ids :: id !in BookIds(book)
    decreases |ids|
  {
    if ids != [] {
      FindLocates(v.book, ids[0]);
      if Find(v.book, ids[0]).Some? {
        var o := Find(v.book, ids[0]).value;
        FinishFoundIsSafe(c, v, ids[0]);
        TakesOne(c, v, o);
        var (book1, balances1) := Finish(c, v.book, v.funds.balances, o);
        var v1 := Venue(book1, v.funds.(balances := balances1), v.counters);
        KeepsMeansOk(c, v, v1);
        FinishAllTakesOut(c, v1, ids[1..]);
      } else {
        FinishAllTakesOut(c, v, ids[1..]);
      }
    }
  }

  lemma TakesOne(c: MarketConf, v: Venue, o: Order)
    requires VenueOk(c, v) && Find(v.book, o.id) == Some(o)
    ensures BookIds(Finish(c, v.book, v.funds.balances, o).0) == BookIds(v.book) - {o.id}
  {
    var stranger := 1 + v.counters.orderId;
    T.UnknownIsAbsent(Trace.Unborn, stranger, v.book);
    T.FinishReads(c, v, o, Trace.Unborn, stranger);
  }

  lemma CancelAllTakesOut(cfg: Config, e: Exchange, user: Uuid, n: MarketName)
    requires ExchangeOk(cfg, e) && Listed(cfg, e, n)
    ensures var e' := CancelAll(cfg, e, user, n).exchange;
            && Listed(cfg, e', n) && BookIds(e'.books[n]) <= BookIds(e.books[n])
            && (BookCount(e.books[n], user) != 0 ==> BookIds(e'.books[n]) != BookIds(e.books[n]))
  {
    var b := e.books[n];
    var ids := IdsOfUser(b.asks + b.bids, user);
    VenueOfIsOk(cfg, e, n);
    UserIds(cfg.confs[n], b, e.counters.orderId, user);
    FinishAllTakesOut(cfg.confs[n], VenueOf(e, n), ids);
    if ids != [] {
      assert ids[0] in ids;
    }
  }

  lemma {:induction false} ResetTakesOut(cfg: Config, e: Exchange, user: Uuid, n: MarketName, orders: seq<PutRequest>)
    requires ExchangeOk(cfg, e) && Listed(cfg, e, n)
    ensures var e' := ResetAll(cfg, e, user, n, orders).exchange;
            && Listed(cfg, e', n) && BookIds(e'.books[n]) <= BookIds(e.books[n])
    decreases |orders|
  {
    if orders != [] && orders[0].market == n {
      var first := CancelAll(cfg, e, user, n);
      CancelAllTakesOut(cfg, e, user, n);
      CancelAllIsSound(cfg, e, user, n);
      ResetTakesOut(cfg, first.exchange, user, n, orders[1..]);
    }
  }

  ghost predicate SameOrderIds(e: Exchange, e': Exchange)
  {
    && e.counters.orderId == e'.counters.orderId && e.books.Keys == e'.books.Keys
    && forall n | n in e.books :: BookIds(e'.books[n]) == BookIds(e.books[n])
  }

  /** A reset that gets past its first order changes the exchange exactly if the user had an order. */
  lemma ResetChanges(cfg: Config, e: Exchange, user: Uuid, n: MarketName, orders: seq<PutRequest>)
    requires ExchangeOk(cfg, e) && Listed(cfg, e, n) && orders != [] && orders[0].market == n
    ensures ResetAll(cfg, e, user, n, orders).exchange == e <==> BookCount(e.books[n], user) == 0
    ensures SameOrderIds(e, ResetAll(cfg, e, user, n, orders).exchange) ==> BookCount(e.books[n], user) == 0
  {
    if BookCount(e.books[n], user) == 0 {
      ResetNone(cfg, e, user, n, orders);
    } else {
      CancelAllTakesOut(cfg, e, user, n);
      CancelAllIsSound(cfg, e, user, n);
      ResetTakesOut(cfg, CancelAll(cfg, e, user, n).exchange, user, n, orders[1..]);
    }
  }

  predicate AllFor(n: MarketName, orders: seq<PutRequest>)
  {
    forall i | 0 <= i < |orders| :: orders[i].market == n
  }

  lemma AllForSplit(n: MarketName, orders: seq<PutRequest>)
    requires orders != []
    ensures AllFor(n, orders) <==> orders[0].market == n && AllFor(n, orders[1..])
  {
    assert forall i | 0 < i < |orders| :: orders[i] == orders[1..][i - 1];
  }

  lemma {:induction false} ResetRefusesStrays(cfg: Config, e: Exchange, user: Uuid, n: MarketName, orders: seq<PutRequest>)
    requires ExchangeOk(cfg, e) && Listed(cfg, e, n)
    ensures ResetAll(cfg, e, user, n, orders).response == Accept <==> AllFor(n, orders)
    ensures ResetAll(cfg, e, user, n, orders).response != Crash
    decreases |orders|
  {
    if orders != [] {
      AllForSplit(n, orders);
      if orders[0].market == n {
        CancelAllTakesOut(cfg, e, user, n);
        CancelAllIsSound(cfg, e, user, n);
        ResetRefusesStrays(cfg, CancelAll(cfg, e, user, n).exchange, user, n, orders[1..]);
      }
    }
  }

  // ---------------------------------------------------------------- batches that do not

  lemma PutOneCounts(cfg: Config, e: Exchange, user: Uuid, put: PutRequest)
    requires ExchangeOk(cfg, e) && Sensible(put.input)
    ensures var r := PutOne(cfg, e, user, put);
            r.exchange.counters.orderId == e.counters.orderId + if r.response == Accept then 1 else 0
  {
    var n := put.market;
    if Listed(cfg, e, n) && OpenOrders(e.books, user) != cfg.userOrderLimit {
      VenueOfIsOk(cfg, e, n);
      PutOrderIsSafe(cfg.confs[n], VenueOf(e, n), put.input, user);
    }
  }

  lemma {:induction false} PutAllCounts(cfg: Config, e: Exchange, user: Uuid, n: MarketName, orders: seq<PutRequest>)
    requires ExchangeOk(cfg, e) && forall p | p in orders :: Sensible(p.input)
    ensures var r := PutAll(cfg, e, user, n, orders);
            && e.counters.orderId <= r.exchange.counters.orderId
            && (r.response == Reject && orders[0].market == n ==> e.counters.orderId < r.exchange.counters.orderId)
            && (r.response == Reject ==> !AllFor(n, orders))
    decreases |orders|
  {
    if orders != [] && orders[0].market == n {
      PutOneCounts(cfg, e, user, orders[0]);
      PutOneIsSound(cfg, e, user, orders[0]);
      var first := PutOne(cfg, e, user, orders[0]);
      if first.response == Accept {
        PutAllCounts(cfg, first.exchange, user, n, orders[1..]);
        AllForSplit(n, orders);
      }
    }
  }

  lemma RefusedReset(cfg: Config, e: Exchange, user: Uuid, n: MarketName, orders: seq<PutRequest>)
    requires ExchangeOk(cfg, e) && Listed(cfg, e, n) && forall p | p in orders :: Sensible(p.input)
    requires PutBatch(cfg, e, user, n, true, orders).response == Reject
    ensures PutBatch(cfg, e, user, n, true, orders) == ResetAll(cfg, e, user, n, orders)
  {
    ResetRefusesStrays(cfg, e, user, n, orders);
    var first := ResetAll(cfg, e, user, n, orders);
    if first.response == Accept {
      ResetAllIsSound(cfg, e, user, n, orders);
      PutAllCounts(cfg, first.exchange, user, n, orders);
    }
  }

  /** A refused batch leaves the exchange as it was exactly when it failed at its first order, or was a
      reset with nothing to cancel. */
  lemma RefusedBatch(cfg: Config, e: Exchange, user: Uuid, n: MarketName, reset: bool, orders: seq<PutRequest>)
    requires ExchangeOk(cfg, e) && Listed(cfg, e, n) && forall p | p in orders :: Sensible(p.input)
    requires PutBatch(cfg, e, user, n, reset, orders).response == Reject
    ensures orders != []
    ensures PutBatch(cfg, e, user, n, reset, orders).exchange == e
       <==> orders[0].market != n || (reset && BookCount(e.books[n], user) == 0)
    ensures SameOrderIds(e, PutBatch(cfg, e, user, n, reset, orders).exchange) ==> PutBatch(cfg, e, user, n, reset, orders).exchange == e
    ensures PutBatch(cfg, e, user, n, reset, orders).exchange == e ==> PutBatch(cfg, e, user, n, reset, orders).events == []
  {
    if reset {
      RefusedReset(cfg, e, user, n, orders);
      if orders[0].market == n {
        ResetChanges(cfg, e, user, n, orders);
        if BookCount(e.books[n], user) == 0 {
          ResetNone(cfg, e, user, n, orders);
        }
      }
    } else {
      assert [] + PutAll(cfg, e, user, n, orders).events == PutAll(cfg, e, user, n, orders).events;
      PutAllCounts(cfg, e, user, n, orders);
    }
  }

  /** A refused request leaves the exchange as it was exactly when it leaves no trace, and then the
      persistor hears nothing of it either; a trace shows in the open orders or in the order counter. */
  lemma RefusedChangesNothingIff(cfg: Config, e: Exchange, user: Uuid, r: Request)
    requires ExchangeOk(cfg, e) && SensibleRequest(r) && Exec(cfg, e, user, r).response == Reject
    ensures Exec(cfg, e, user, r).exchange == e <==> LeavesNoTrace(cfg, e, user, r)
    ensures LeavesNoTrace(cfg, e, user, r) ==> Exec(cfg, e, user, r) == Effect(e, Reject, [])
    ensures SameOrderIds(e, Exec(cfg, e, user, r).exchange) ==> LeavesNoTrace(cfg, e, user, r)
  {
    match r
    case BatchOrderPut(n, reset, orders) =>
      if Listed(cfg, e, n) {
        RefusedBatch(cfg, e, user, n, reset, orders);
      }
    case _ =>
  }

  /** An order placed by a batch that is then refused: it is in the exchange, and will not be in the log. */
  lemma MixedBatchIsLost(cfg: Config, e: Exchange, user: Uuid, n: MarketName, put: PutRequest, stray: PutRequest)
    requires ExchangeOk(cfg, e) && Listed(cfg, e, n) && put.market == n && stray.market != n
    requires Sensible(put.input) && PutOne(cfg, e, user, put).response == Accept
    ensures var r := Exec(cfg, e, user, BatchOrderPut(n, false, [put, stray]));
            r.response == Reject && r.exchange.counters.orderId == e.counters.orderId + 1
  {
    var orders := [put, stray];
    PutOneCounts(cfg, e, user, put);
    assert orders[1..] == [stray];
    assert PutAll(cfg, PutOne(cfg, e, user, put).exchange, user, n, orders[1..]).response == Reject;
  }
}
