/** Recovery, part one: replaying a log.  Two exchanges that agree on what a snapshot keeps (balances,
    open orders, order and trade counters) serve every logged request alike, whatever their duplicate
    caches hold; only a deposit or withdrawal whose key was replayed before is refused. */
module Replay {
  import opened Types
  import opened Orders
  import opened Ledger
  import opened Matching
  import opened MatchLoop
  import opened BookInvariant
  import opened VenueInvariant
  import opened Exchange
  import opened ExchangeInvariant
  import opened RefusedBatches
  import Sums

  predicate SameBook(b: Book, b': Book)
  {
    b.asks == b'.asks && b.bids == b'.bids
  }

  predicate SameCounters(c: Counters, c': Counters)
  {
    c.orderId == c'.orderId && c.tradeId == c'.tradeId
  }

  predicate SameVenue(v: Venue, v': Venue)
  {
    SameBook(v.book, v'.book) && v.funds.balances == v'.funds.balances && SameCounters(v.counters, v'.counters)
  }

  /** What a snapshot keeps: not last prices, trade counts, cached keys or the log's own counter. */
  ghost predicate SameExchange(e: Exchange, e': Exchange)
  {
    && e.books.Keys == e'.books.Keys && (forall n | n in e.books :: SameBook(e.books[n], e'.books[n]))
    && e.funds.balances == e'.funds.balances && SameCounters(e.counters, e'.counters)
  }

  // ---------------------------------------------------------------- placing

  /** Settling the same updates on the same balances ends alike, if both are allowed. */
  lemma SettlesAlike(f: Funds, f': Funds, u: seq<UpdateParams>)
    requires |u| == 4 && f.balances == f'.balances && Settle(f, u).Ok? && Settle(f', u).Ok?
    ensures Settle(f, u).value.balances == Settle(f', u).value.balances
  {
  }

  /** Two runs of the loop that differ at most in cache, last price, trade count and past events. */
  predicate SameRun(s: Matched, s': Matched)
  {
    && s.taker == s'.taker && s.done == s'.done && s.rest == s'.rest && s.tradeId == s'.tradeId
    && s.quoteSum == s'.quoteSum && s.funds.balances == s'.funds.balances
  }

  lemma TurnsAlike(c: MarketConf, s: Matched, s': Matched, limit: int)
    requires SameRun(s, s') && !Turn(c, s, limit).Panic? && !Turn(c, s', limit).Panic?
    ensures match Turn(c, s, limit)
            case Go(next) => Turn(c, s', limit).Go? && SameRun(next, Turn(c, s', limit).next)
            case verdict => Turn(c, s', limit) == verdict
  {
    if Turn(c, s, limit).Go? {
      SettlesAlike(s.funds, s'.funds, TurnUpdates(c, s, limit));
    }
  }

  lemma {:induction false} MatchesAlike(c: MarketConf, s: Matched, s': Matched, limit: int)
    requires SameRun(s, s') && Match(c, s, limit).Ended? && Match(c, s', limit).Ended?
    ensures SameRun(Match(c, s, limit).s, Match(c, s', limit).s)
    ensures Match(c, s, limit).needCancel == Match(c, s', limit).needCancel
    decreases |s.rest|
  {
    TurnsAlike(c, s, s', limit);
    if Turn(c, s, limit).Go? {
      MatchesAlike(c, Turn(c, s, limit).next, Turn(c, s', limit).next, limit);
    }
  }

  predicate SamePlacing(p: Option<Placed>, p': Option<Placed>)
  {
    p.Some? && p'.Some? ==> SameVenue(p.value.venue, p'.value.venue)
  }

  lemma ExecutesAlike(c: MarketConf, v: Venue, v': Venue, taker: Order, limit: int)
    requires SameVenue(v, v')
    ensures SamePlacing(Execute(c, v, taker, limit), Execute(c, v', taker, limit))
  {
    var counter := v.book.Side(Opposite(taker.side));
    if Execute(c, v, taker, limit).Some? && Execute(c, v', taker, limit).Some? {
      MatchesAlike(c, Start(taker, counter, v), Start(taker, counter, v'), limit);
    }
  }

  lemma ChecksAlike(c: MarketConf, v: Venue, v': Venue, input: OrderInput, user: Uuid)
    requires SameVenue(v, v')
    ensures Refusal(c, v, input, user) == Refusal(c, v', input, user)
    ensures QuoteLimit(c, v, input, user) == QuoteLimit(c, v', input, user)
  {
  }

  lemma AdmittedAs(c: MarketConf, v: Venue, input: OrderInput, user: Uuid, o: Order, limit: int)
    requires o == NewOrder(c, v.counters.orderId + 1, input, user) && limit == QuoteLimit(c, v, input, user)
    ensures Admit(c, v, input, user) == Execute(c, NextOrderId(v), o, limit)
  {
  }

  lemma AdmitsAlike(c: MarketConf, v: Venue, v': Venue, input: OrderInput, user: Uuid)
    requires SameVenue(v, v')
    ensures SamePlacing(Admit(c, v, input, user), Admit(c, v', input, user))
  {
    ChecksAlike(c, v, v', input, user);
    var o, limit := NewOrder(c, v.counters.orderId + 1, input, user), QuoteLimit(c, v, input, user);
    AdmittedAs(c, v, input, user, o, limit);
    AdmittedAs(c, v', input, user, o, limit);
    ExecutesAlike(c, NextOrderId(v), NextOrderId(v'), o, limit);
  }

  /** Two placings end alike: refused for the same reason, or accepted into the same state. */
  predicate EndAlike(r: PutResult, r': PutResult)
  {
    match r
    case Accepted(p) => r'.Accepted? && SameVenue(p.venue, r'.placed.venue)
    case _ => r' == r
  }

  lemma PutsAlike(c: MarketConf, v: Venue, v': Venue, input: OrderInput, user: Uuid)
    requires SameVenue(v, v') && !PutOrder(c, v, input, user).Crashed? && !PutOrder(c, v', input, user).Crashed?
    ensures EndAlike(PutOrder(c, v, input, user), PutOrder(c, v', input, user))
  {
    ChecksAlike(c, v, v', input, user);
    if Refusal(c, v, input, user).None? {
      AdmitsAlike(c, v, v', input, user);
    }
  }

  // ---------------------------------------------------------------- requests

  /** Both exchanges are sound and agree on what a snapshot keeps. */
  ghost predicate Twins(cfg: Config, e: Exchange, e': Exchange)
  {
    ExchangeOk(cfg, e) && ExchangeOk(cfg, e') && SameExchange(e, e')
  }

  ghost predicate SameEffect(r: Effect, r': Effect)
  {
    r.response == r'.response && SameExchange(r.exchange, r'.exchange)
  }

  lemma WithVenuesAlike(e: Exchange, e': Exchange, n: MarketName, v: Venue, v': Venue)
    requires SameExchange(e, e') && n in e.books && SameVenue(v, v')
    ensures SameExchange(WithVenue(e, n, v), WithVenue(e', n, v'))
  {
  }

  lemma OpenOrdersAlike(e: Exchange, e': Exchange, user: Uuid)
    requires SameExchange(e, e')
    ensures OpenOrders(e.books, user) == OpenOrders(e'.books, user)
  {
    Sums.SumSame(e.books, e'.books, CountWeight(user), CountWeight(user));
  }

  lemma PutsOneAlike(cfg: Config, e: Exchange, e': Exchange, user: Uuid, put: PutRequest)
    requires Twins(cfg, e, e') && Sensible(put.input)
    ensures SameEffect(PutOne(cfg, e, user, put), PutOne(cfg, e', user, put))
  {
    OpenOrdersAlike(e, e', user);
    var n := put.market;
    if Listed(cfg, e, n) {
      var c, v, v' := cfg.confs[n], VenueOf(e, n), VenueOf(e', n);
      VenueOfIsOk(cfg, e, n);
      VenueOfIsOk(cfg, e', n);
      PutOrderIsSafe(c, v, put.input, user);
      PutOrderIsSafe(c, v', put.input, user);
      PutsAlike(c, v, v', put.input, user);
      var r, r' := PutOrder(c, v, put.input, user), PutOrder(c, v', put.input, user);
      if r.Accepted? {
        WithVenuesAlike(e, e', n, r.placed.venue, r'.placed.venue);
      }
    }
  }

  lemma FindsAlike(b: Book, b': Book, id: nat)
    requires SameBook(b, b')
    ensures Find(b, id) == Find(b', id)
  {
  }

  lemma {:induction false} FinishesAlike(c: MarketConf, b: Book, b': Book, balances: Balances, ids: seq<nat>)
    requires SameBook(b, b')
    ensures var (b1, balances1, _) := FinishAll(c, b, balances, ids);
            var (b1', balances1', _) := FinishAll(c, b', balances, ids);
            SameBook(b1, b1') && balances1 == balances1'
    decreases |ids|
  {
    if ids != [] {
      FindsAlike(b, b', ids[0]);
      match Find(b, ids[0])
      case None => FinishesAlike(c, b, b', balances, ids[1..]);
      case Some(o) =>
        var (b2, balances2) := Finish(c, b, balances, o);
        FinishesAlike(c, b2, Finish(c, b', balances, o).0, balances2, ids[1..]);
    }
  }

  lemma FinishesInAlike(cfg: Config, e: Exchange, e': Exchange, n: MarketName, ids: seq<nat>)
    requires SameExchange(e, e') && Listed(cfg, e, n)
    ensures SameEffect(FinishIn(cfg, e, n, ids), FinishIn(cfg, e', n, ids))
  {
    FinishesAlike(cfg.confs[n], e.books[n], e'.books[n], e.funds.balances, ids);
  }

  lemma CancelsAlike(cfg: Config, e: Exchange, e': Exchange, user: Uuid, n: MarketName)
    requires SameExchange(e, e')
    ensures SameEffect(CancelAll(cfg, e, user, n), CancelAll(cfg, e', user, n))
  {
    if Listed(cfg, e, n) {
      FinishesInAlike(cfg, e, e', n, IdsOfUser(e.books[n].asks + e.books[n].bids, user));
    }
  }

  lemma CancelsOneAlike(cfg: Config, e: Exchange, e': Exchange, user: Uuid, n: MarketName, id: nat)
    requires SameExchange(e, e')
    ensures SameEffect(CancelOne(cfg, e, user, n, id), CancelOne(cfg, e', user, n, id))
  {
    if Listed(cfg, e, n) {
      FindsAlike(e.books[n], e'.books[n], id);
      FinishesInAlike(cfg, e, e', n, [id]);
    }
  }

  lemma TwinsAfter(cfg: Config, e: Exchange, e': Exchange, r: Effect, r': Effect)
    requires Twins(cfg, e, e') && Sound(cfg, e, r) && Sound(cfg, e', r') && SameEffect(r, r')
    ensures Twins(cfg, r.exchange, r'.exchange)
  {
  }

  lemma {:induction false} ResetsAlike(cfg: Config, e: Exchange, e': Exchange, user: Uuid, n: MarketName, orders: seq<PutRequest>)
    requires Twins(cfg, e, e')
    ensures SameEffect(ResetAll(cfg, e, user, n, orders), ResetAll(cfg, e', user, n, orders))
    decreases |orders|
  {
    if orders != [] && orders[0].market == n {
      CancelsAlike(cfg, e, e', user, n);
      CancelAllIsSound(cfg, e, user, n);
      CancelAllIsSound(cfg, e', user, n);
      var r, r' := CancelAll(cfg, e, user, n), CancelAll(cfg, e', user, n);
      TwinsAfter(cfg, e, e', r, r');
      ResetsAlike(cfg, r.exchange, r'.exchange, user, n, orders[1..]);
    }
  }

  lemma PutsOneKeepTwins(cfg: Config, e: Exchange, e': Exchange, user: Uuid, put: PutRequest)
    requires Twins(cfg, e, e') && Sensible(put.input)
    ensures var r, r' := PutOne(cfg, e, user, put), PutOne(cfg, e', user, put);
            SameEffect(r, r') && r.response != Crash && Twins(cfg, r.exchange, r'.exchange)
  {
    PutsOneAlike(cfg, e, e', user, put);
    PutOneIsSound(cfg, e, user, put);
    PutOneIsSound(cfg, e', user, put);
    TwinsAfter(cfg, e, e', PutOne(cfg, e, user, put), PutOne(cfg, e', user, put));
  }

  lemma {:induction false} PutsAllAlike(cfg: Config, e: Exchange, e': Exchange, user: Uuid, n: MarketName, orders: seq<PutRequest>)
    requires Twins(cfg, e, e') && forall p | p in orders :: Sensible(p.input)
    ensures SameEffect(PutAll(cfg, e, user, n, orders), PutAll(cfg, e', user, n, orders))
    decreases |orders|
  {
    if orders != [] && orders[0].market == n {
      PutsOneKeepTwins(cfg, e, e', user, orders[0]);
      var r, r' := PutOne(cfg, e, user, orders[0]), PutOne(cfg, e', user, orders[0]);
      PutsAllAlike(cfg, r.exchange, r'.exchange, user, n, orders[1..]);
    }
  }

  lemma BatchesAlike(cfg: Config, e: Exchange, e': Exchange, user: Uuid, n: MarketName, reset: bool, orders: seq<PutRequest>)
    requires Twins(cfg, e, e') && forall p | p in orders :: Sensible(p.input)
    ensures SameEffect(PutBatch(cfg, e, user, n, reset, orders), PutBatch(cfg, e', user, n, reset, orders))
  {
    if Listed(cfg, e, n) {
      if reset {
        ResetsAlike(cfg, e, e', user, n, orders);
        ResetAllIsSound(cfg, e, user, n, orders);
        ResetAllIsSound(cfg, e', user, n, orders);
        var r, r' := ResetAll(cfg, e, user, n, orders), ResetAll(cfg, e', user, n, orders);
        TwinsAfter(cfg, e, e', r, r');
        PutsAllAlike(cfg, r.exchange, r'.exchange, user, n, orders);
      } else {
        PutsAllAlike(cfg, e, e', user, n, orders);
      }
    }
  }

  /** The duplicate-cache key a request uses, if it is a deposit or withdrawal of a known asset. */
  function KeyUsed(cfg: Config, user: Uuid, r: Request): set<UpdateKey>
  {
    match r
    case BalanceUpdate(asset, delta, business, id) =>
      if asset in cfg.assets then {ChangeParams(user, asset, RoundedChange(cfg.assets[asset], delta), business, id).key} else {}
    case _ => {}
  }

  /** A change that one exchange accepted is accepted by the other exactly when its key is new there. */
  lemma ChangesAlike(cfg: Config, e: Exchange, e': Exchange, user: Uuid, asset: Asset, delta: Fixed, business: nat, id: nat)
    requires Twins(cfg, e, e')
    requires UpdateBalance(cfg, e, user, asset, delta, business, id).response == Accept
    ensures var r' := UpdateBalance(cfg, e', user, asset, delta, business, id);
            && (r'.response == Accept <==> KeyUsed(cfg, user, BalanceUpdate(asset, delta, business, id)) !! e'.funds.cache)
            && (r'.response == Accept ==> SameEffect(UpdateBalance(cfg, e, user, asset, delta, business, id), r'))
  {
    var p := ChangeParams(user, asset, RoundedChange(cfg.assets[asset], delta), business, id);
    UpdateIsExact(e.funds, p, asset);
    UpdateIsExact(e'.funds, p, asset);
  }

  /** Any request one exchange accepted is accepted by its twin, with the same effect, exactly when
      the twin has not seen its key. */
  lemma RequestsAlike(cfg: Config, e: Exchange, e': Exchange, user: Uuid, r: Request)
    requires Twins(cfg, e, e') && SensibleRequest(r) && Exec(cfg, e, user, r).response == Accept
    ensures var f := Exec(cfg, e', user, r);
            && (f.response == Accept <==> KeyUsed(cfg, user, r) !! e'.funds.cache)
            && (f.response == Accept ==> SameEffect(Exec(cfg, e, user, r), f))
  {
    match r
    case BalanceUpdate(asset, delta, business, id) => ChangesAlike(cfg, e, e', user, asset, delta, business, id);
    case OrderPut(put) => PutsOneAlike(cfg, e, e', user, put);
    case BatchOrderPut(n, reset, orders) => BatchesAlike(cfg, e, e', user, n, reset, orders);
    case OrderCancel(n, id) => CancelsOneAlike(cfg, e, e', user, n, id);
    case OrderCancelAll(n) => CancelsAlike(cfg, e, e', user, n);
  }

  // ---------------------------------------------------------------- which keys replay has seen

  function Unspent(cache: set<UpdateKey>): set<UpdateKey>
  {
    set k | k in cache && k.businessType != Trading
  }

  lemma {:induction false} MatchSpendsTrades(c: MarketConf, s: Matched, limit: int)
    requires Match(c, s, limit).Ended?
    ensures Unspent(Match(c, s, limit).s.funds.cache) == Unspent(s.funds.cache)
    decreases |s.rest|
  {
    if Turn(c, s, limit).Go? {
      var s' := Turn(c, s, limit).next;
      SettleSpendsTrades(s.funds, TurnUpdates(c, s, limit));
      MatchSpendsTrades(c, s', limit);
    }
  }

  lemma SettleSpendsTrades(f: Funds, u: seq<UpdateParams>)
    requires |u| == 4 && (forall p | p in u :: p.key.businessType == Trading) && Settle(f, u).Ok?
    ensures Unspent(Settle(f, u).value.cache) == Unspent(f.cache)
  {
    assert u[0] in u && u[1] in u && u[2] in u && u[3] in u;
    assert Settle(f, u).value.cache == f.cache + {u[0].key} + {u[1].key} + {u[2].key} + {u[3].key};
  }

  lemma ExecuteSpendsTrades(c: MarketConf, v: Venue, taker: Order, limit: int)
    requires Execute(c, v, taker, limit).Some?
    ensures Unspent(Execute(c, v, taker, limit).value.venue.funds.cache) == Unspent(v.funds.cache)
  {
    MatchSpendsTrades(c, Start(taker, v.book.Side(Opposite(taker.side)), v), limit);
  }

  lemma PutOneSpendsTrades(cfg: Config, e: Exchange, user: Uuid, put: PutRequest)
    ensures Unspent(PutOne(cfg, e, user, put).exchange.funds.cache) == Unspent(e.funds.cache)
  {
    var n := put.market;
    if Listed(cfg, e, n) && PutOrder(cfg.confs[n], VenueOf(e, n), put.input, user).Accepted? {
      var c, v := cfg.confs[n], VenueOf(e, n);
      ExecuteSpendsTrades(c, NextOrderId(v), NewOrder(c, v.counters.orderId + 1, put.input, user), QuoteLimit(c, v, put.input, user));
    }
  }

  lemma {:induction false} ResetSpendsNothing(cfg: Config, e: Exchange, user: Uuid, n: MarketName, orders: seq<PutRequest>)
    ensures ResetAll(cfg, e, user, n, orders).exchange.funds.cache == e.funds.cache
    decreases |orders|
  {
    if orders != [] && orders[0].market == n {
      ResetSpendsNothing(cfg, CancelAll(cfg, e, user, n).exchange, user, n, orders[1..]);
    }
  }

  lemma {:induction false} PutAllSpendsTrades(cfg: Config, e: Exchange, user: Uuid, n: MarketName, orders: seq<PutRequest>)
    ensures Unspent(PutAll(cfg, e, user, n, orders).exchange.funds.cache) == Unspent(e.funds.cache)
    decreases |orders|
  {
    if orders != [] && orders[0].market == n {
      PutOneSpendsTrades(cfg, e, user, orders[0]);
      PutAllSpendsTrades(cfg, PutOne(cfg, e, user, orders[0]).exchange, user, n, orders[1..]);
    }
  }

  /** Of the keys deposits and withdrawals use, an accepted request adds exactly its own. */
  lemma ExecSpendsItsKey(cfg: Config, e: Exchange, user: Uuid, r: Request)
    requires Exec(cfg, e, user, r).response == Accept
    ensures Unspent(Exec(cfg, e, user, r).exchange.funds.cache) == Unspent(e.funds.cache) + KeyUsed(cfg, user, r)
    ensures KeyUsed(cfg, user, r) == Unspent(KeyUsed(cfg, user, r))
  {
    match r
    case BalanceUpdate(asset, delta, business, id) =>
    case OrderPut(put) => PutOneSpendsTrades(cfg, e, user, put);
    case BatchOrderPut(n, reset, orders) =>
      var first := if reset then ResetAll(cfg, e, user, n, orders) else Effect(e, Accept, []);
      ResetSpendsNothing(cfg, e, user, n, orders);
      PutAllSpendsTrades(cfg, first.exchange, user, n, orders);
    case OrderCancel(n, id) =>
    case OrderCancelAll(n) =>
  }

  // ---------------------------------------------------------------- replaying a log

  /** `replay` of one entry after the other; each result is unwrapped, so a refusal is a crash. */
  ghost function Replayed(cfg: Config, e: Exchange, log: seq<LogEntry>): Option<Exchange>
    decreases |log|
  {
    if log == [] then Some(e)
    else
      var r := Exec(cfg, e, log[0].user, log[0].request);
      if r.response == Accept then Replayed(cfg, r.exchange, log[1..]) else None
  }

  function EntryKey(cfg: Config, entry: LogEntry): set<UpdateKey>
  {
    KeyUsed(cfg, entry.user, entry.request)
  }

  /** No two deposits or withdrawals of the log use one key, nor one of `used`. */
  predicate FreshKeys(cfg: Config, used: set<UpdateKey>, log: seq<LogEntry>)
  {
    && (forall i | 0 <= i < |log| :: EntryKey(cfg, log[i]) !! used)
    && (forall i, j | 0 <= i < j < |log| :: EntryKey(cfg, log[i]) !! EntryKey(cfg, log[j]))
  }

  lemma FreshKeysSplit(cfg: Config, used: set<UpdateKey>, log: seq<LogEntry>)
    requires log != []
    ensures FreshKeys(cfg, used, log)
       <==> EntryKey(cfg, log[0]) !! used && FreshKeys(cfg, used + EntryKey(cfg, log[0]), log[1..])
  {
    var tail := log[1..];
    assert forall i | 0 <= i < |tail| :: tail[i] == log[i + 1];
    if EntryKey(cfg, log[0]) !! used && FreshKeys(cfg, used + EntryKey(cfg, log[0]), tail) {
      forall i | 0 <= i < |log|
        ensures EntryKey(cfg, log[i]) !! used
      {
        assert i > 0 ==> EntryKey(cfg, tail[i - 1]) !! used + EntryKey(cfg, log[0]);
      }
      forall i, j | 0 <= i < j < |log|
        ensures EntryKey(cfg, log[i]) !! EntryKey(cfg, log[j])
      {
        assert EntryKey(cfg, tail[j - 1]) !! used + EntryKey(cfg, log[0]);
        assert i > 0 ==> EntryKey(cfg, tail[i - 1]) !! EntryKey(cfg, tail[j - 1]);
      }
    }
  }

  /** If this step refuses a request, the refusal leaves no trace. */
  ghost predicate StepLeavesNoTrace(cfg: Config, w: World, i: Input)
  {
    i.Serve? && i.available && Exec(cfg, w.exchange, i.user, i.request).response == Reject
    ==> LeavesNoTrace(cfg, w.exchange, i.user, i.request)
  }

  /** No refusal in the run leaves a trace. */
  ghost predicate RefusalsLeaveNoTrace(cfg: Config, w: World, inputs: seq<Input>)
    decreases |inputs|
  {
    inputs != [] ==>
      && StepLeavesNoTrace(cfg, w, inputs[0])
      && RefusalsLeaveNoTrace(cfg, Next(cfg, w, inputs[0]), inputs[1..])
  }

  ghost predicate SensibleInputs(inputs: seq<Input>)
  {
    forall i | i in inputs && i.Serve? :: SensibleRequest(i.request)
  }

  lemma {:induction false} LogGrows(cfg: Config, w: World, inputs: seq<Input>)
    ensures w.log <= Run(cfg, w, inputs).log
    decreases |inputs|
  {
    if inputs != [] {
      LogGrows(cfg, Next(cfg, w, inputs[0]), inputs[1..]);
    }
  }

  /** What a run logs after the state it started from. */
  ghost function LoggedBy(cfg: Config, w: World, inputs: seq<Input>): seq<LogEntry>
  {
    LogGrows(cfg, w, inputs);
    Run(cfg, w, inputs).log[|w.log|..]
  }

  lemma LoggedByStep(cfg: Config, w: World, inputs: seq<Input>)
    requires inputs != []
    ensures var w1 := Next(cfg, w, inputs[0]);
            LoggedBy(cfg, w, inputs) == w1.log[|w.log|..] + LoggedBy(cfg, w1, inputs[1..])
  {
    LogGrows(cfg, w, inputs);
    LogGrows(cfg, Next(cfg, w, inputs[0]), inputs[1..]);
  }

  /** The step of the live exchange, and the replay of what it logged, keep the two alike. */
  lemma StepsAlike(cfg: Config, w: World, e': Exchange, i: Input)
    requires WorldOk(cfg, w) && Twins(cfg, w.exchange, e') && (i.Serve? ==> SensibleRequest(i.request))
    requires StepLeavesNoTrace(cfg, w, i)
    ensures var w1 := Next(cfg, w, i);
            && WorldOk(cfg, w1)
            && (w1.log == w.log ==> Twins(cfg, w1.exchange, e'))
            && (w1.log != w.log ==>
                  && i.Serve? && i.available && |w1.log| == |w.log| + 1 && w1.log[..|w.log|] == w.log
                  && var entry := w1.log[|w.log|]; var r := Exec(cfg, e', entry.user, entry.request);
                     && (r.response == Accept <==> EntryKey(cfg, entry) !! e'.funds.cache)
                     && (r.response == Accept ==> Twins(cfg, w1.exchange, r.exchange)))
  {
    NextIsOk(cfg, w, i);
    if i.Serve? && i.available {
      var r := Exec(cfg, w.exchange, i.user, i.request);
      if r.response == Accept {
        RequestsAlike(cfg, w.exchange, e', i.user, i.request);
        ExecIsSound(cfg, e', i.user, i.request);
      } else {
        ExecIsSound(cfg, w.exchange, i.user, i.request);
        RefusedChangesNothingIff(cfg, w.exchange, i.user, i.request);
      }
    }
  }

  /** Replaying what a run logged, on a twin of the state the run started from, succeeds exactly when
      no deposit or withdrawal key is replayed twice, and then ends in a twin of the run's end;
      provided that no refusal left a trace. */
  lemma {:induction false} ReplayIsExact(cfg: Config, w: World, e': Exchange, inputs: seq<Input>)
    requires WorldOk(cfg, w) && Twins(cfg, w.exchange, e') && SensibleInputs(inputs)
    requires RefusalsLeaveNoTrace(cfg, w, inputs)
    ensures var log := LoggedBy(cfg, w, inputs);
            && (Replayed(cfg, e', log).Some? <==> FreshKeys(cfg, Unspent(e'.funds.cache), log))
            && (Replayed(cfg, e', log).Some? ==> Twins(cfg, Run(cfg, w, inputs).exchange, Replayed(cfg, e', log).value))
    decreases |inputs|
  {
    if inputs != [] {
      var w1 := Next(cfg, w, inputs[0]);
      StepsAlike(cfg, w, e', inputs[0]);
      LoggedByStep(cfg, w, inputs);
      var rest := LoggedBy(cfg, w1, inputs[1..]);
      if w1.log == w.log {
        assert LoggedBy(cfg, w, inputs) == rest;
        ReplayIsExact(cfg, w1, e', inputs[1..]);
      } else {
        var entry := w1.log[|w.log|];
        var log := [entry] + rest;
        assert LoggedBy(cfg, w, inputs) == log && log[1..] == rest;
        FreshKeysSplit(cfg, Unspent(e'.funds.cache), log);
        var r := Exec(cfg, e', entry.user, entry.request);
        if r.response == Accept {
          ExecSpendsItsKey(cfg, e', entry.user, entry.request);
          ReplayIsExact(cfg, w1, r.exchange, inputs[1..]);
        }
      }
    }
  }
}
