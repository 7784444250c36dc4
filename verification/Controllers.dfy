/** The controller object: one ledger, one duplicate cache and one sequencer shared by all markets,
    and the log of what was accepted.  Its methods do to the objects what module Exchange says. */
module Controllers {
  import opened Types
  import opened Orders
  import opened Ledger
  import opened Balances
  import opened Matching
  import opened MatchLoop
  import opened BookInvariant
  import opened VenueInvariant
  import opened Exchange
  import opened ExchangeInvariant
  import opened Markets
  import opened Iteration
  import R = Replay
  import Sums

  function PutAnswer(r: PutResult): Result<Order, PutError>
    requires !r.Crashed?
  {
    match r
    case Refused(e) => Err(e)
    case Accepted(placed) => Ok(placed.order)
  }

  function VenueAfter(v: Venue, r: PutResult): Venue
  {
    if r.Accepted? then r.placed.venue else v
  }

  function Heard(p: Persistor, r: PutResult): seq<Event>
    reads p
  {
    if r.Accepted? then p.Told(r.placed.events) else p.events
  }

  function EventsOf(r: PutResult): seq<Event>
  {
    if r.Accepted? then r.placed.events else []
  }

  lemma PutOneIs(cfg: Config, e: Exchange, user: Uuid, put: PutRequest)
    requires Listed(cfg, e, put.market) && OpenOrders(e.books, user) != cfg.userOrderLimit
    ensures var n, v := put.market, VenueOf(e, put.market);
            var r := Matching.PutOrder(cfg.confs[n], v, put.input, user);
            !r.Crashed? ==>
              PutOne(cfg, e, user, put) == Effect(WithVenue(e, n, VenueAfter(v, r)), if r.Accepted? then Accept else Reject, EventsOf(r))
  {
    var n := put.market;
    assert e.books[n := e.books[n]] == e.books;
  }

  lemma FinishesOne(cfg: Config, e: Exchange, n: MarketName, id: nat, o: Order)
    requires Listed(cfg, e, n) && Find(e.books[n], id) == Some(o)
    ensures FinishIn(cfg, e, n, [id]).events == [OrderEvent(o, FINISH)]
    ensures var (book, balances) := Finish(cfg.confs[n], e.books[n], e.funds.balances, o);
            FinishIn(cfg, e, n, [id])
            == Effect(WithVenue(e, n, Venue(book, e.funds.(balances := balances), e.counters)), Accept, [OrderEvent(o, FINISH)])
  {
    var (book, balances) := Finish(cfg.confs[n], e.books[n], e.funds.balances, o);
    var ids := [id];
    assert ids[0] == id && ids[1..] == [];
    assert FinishAll(cfg.confs[n], book, balances, []) == (book, balances, []);
    assert [OrderEvent(o, FINISH)] + [] == [OrderEvent(o, FINISH)];
    assert FinishAll(cfg.confs[n], e.books[n], e.funds.balances, ids) == (book, balances, [OrderEvent(o, FINISH)]);
  }

  lemma NotFound(b: Book, id: nat)
    ensures id !in BookIds(b) ==> Find(b, id) == None
  {
    FindLocates(b, id);
  }

  /** What a record becomes when a request, replayed or not, tells of these events. */
  function Recorded(isReal: bool, record: seq<Event>, events: seq<Event>): seq<Event>
  {
    if isReal then record + events else record
  }

  lemma RecordedTwice(isReal: bool, record: seq<Event>, first: seq<Event>, second: seq<Event>)
    ensures Recorded(isReal, Recorded(isReal, record, first), second) == Recorded(isReal, record, first + second)
  {
    assert record + first + second == record + (first + second);
  }

  lemma RecordedNothing(isReal: bool, record: seq<Event>)
    ensures Recorded(isReal, record, []) == record
  {
    assert record + [] == record;
  }

  /** `all` is what is still to come, `rest`, after `told` was told. */
  ghost predicate Continues(all: Effect, told: seq<Event>, rest: Effect)
  {
    all == Effect(rest.exchange, rest.response, told + rest.events)
  }

  lemma Begins(all: Effect)
    ensures Continues(all, [], all)
  {
    assert [] + all.events == all.events;
  }

  lemma BatchBegins(isReal: bool, all: Effect, record: seq<Event>, orders: seq<PutRequest>)
    ensures Continues(all, [], all) && Recorded(isReal, record, []) == record && orders[0..] == orders
  {
    Begins(all);
    RecordedNothing(isReal, record);
  }

  lemma ResetGoesOn(cfg: Config, e: Exchange, user: Uuid, n: MarketName, orders: seq<PutRequest>, i: nat, told: seq<Event>, all: Effect)
    requires i < |orders| && Continues(all, told, ResetAll(cfg, e, user, n, orders[i..]))
    ensures orders[i].market != n ==> all == Effect(e, Reject, told)
    ensures orders[i].market == n ==>
              var first := CancelAll(cfg, e, user, n);
              Continues(all, told + first.events, ResetAll(cfg, first.exchange, user, n, orders[i + 1..]))
  {
    assert orders[i..][1..] == orders[i + 1..];
    if orders[i].market == n {
      var first := CancelAll(cfg, e, user, n);
      Regroup(told, first.events, ResetAll(cfg, first.exchange, user, n, orders[i + 1..]).events);
    } else {
      assert told + [] == told;
    }
  }

  lemma PutsGoOn(cfg: Config, e: Exchange, user: Uuid, n: MarketName, orders: seq<PutRequest>, i: nat, told: seq<Event>, all: Effect)
    requires i < |orders| && Continues(all, told, PutAll(cfg, e, user, n, orders[i..]))
    requires orders[i].market == n
    ensures var first := PutOne(cfg, e, user, orders[i]);
            && (first.response == Reject ==> all == Effect(first.exchange, Accept, told + first.events))
            && (first.response == Accept ==> Continues(all, told + first.events, PutAll(cfg, first.exchange, user, n, orders[i + 1..])))
  {
    assert orders[i..][1..] == orders[i + 1..];
    var first := PutOne(cfg, e, user, orders[i]);
    if first.response == Accept {
      Regroup(told, first.events, PutAll(cfg, first.exchange, user, n, orders[i + 1..]).events);
    }
  }

  lemma ResetEnds(cfg: Config, e: Exchange, user: Uuid, n: MarketName, orders: seq<PutRequest>, i: nat, told: seq<Event>, all: Effect)
    requires i == |orders| || (i < |orders| && orders[i].market != n)
    requires Continues(all, told, ResetAll(cfg, e, user, n, orders[i..]))
    ensures all == Effect(e, if i == |orders| then Accept else Reject, told)
  {
    assert told + [] == told;
  }

  lemma PutsEnd(cfg: Config, e: Exchange, user: Uuid, n: MarketName, orders: seq<PutRequest>, i: nat, told: seq<Event>, all: Effect)
    requires i == |orders| || (i < |orders| && orders[i].market != n)
    requires Continues(all, told, PutAll(cfg, e, user, n, orders[i..]))
    ensures all == Effect(e, if i == |orders| then Accept else Reject, told)
  {
    assert told + [] == told;
  }

  class Controller {
    const cfg: Config
    const markets: map<MarketName, Market>
    const balanceManager: BalanceManager
    const updateController: BalanceUpdateController
    const sequencer: Sequencer
    const persistor: Persistor
    const dummyPersistor: Persistor
    var log: seq<LogEntry>

    /** The exchange these objects are. */
    ghost var model: Exchange
    ghost var repr: set<object>

    /** A market is sound, its own, and what the model says. */
    ghost predicate MarketOk(n: MarketName)
      requires n in markets
      reads this, repr
    {
      && n in cfg.confs && n in model.books && markets[n].conf == cfg.confs[n]
      && markets[n] in repr && markets[n].Cells() <= repr
      && markets[n].Valid() && markets[n].Abs() == model.books[n]
    }

    /** No two markets share an object. */
    ghost predicate Separate(n: MarketName, m: MarketName)
      requires n in markets && m in markets
      reads this, repr
    {
      markets[n] in repr && markets[m] in repr && (n != m ==> markets[n] != markets[m] && markets[n].Cells() !! markets[m].Cells())
    }

    ghost predicate LedgerOk()
      reads this, balanceManager, updateController, sequencer
    {
      && model.funds == Funds(balanceManager.balances, updateController.cache)
      && model.counters == Counters(sequencer.orderId, sequencer.tradeId, sequencer.operationLogId)
    }

    ghost predicate Valid()
      reads this, repr
    {
      && this in repr && {balanceManager, updateController, sequencer, persistor, dummyPersistor} <= repr
      && markets.Keys == cfg.confs.Keys == model.books.Keys
      && persistor.isReal && !dummyPersistor.isReal && persistor != dummyPersistor
      && (forall n {:trigger MarketOk(n)} | n in markets :: MarketOk(n))
      && (forall n, m {:trigger Separate(n, m)} | n in markets && m in markets :: Separate(n, m))
      && LedgerOk()
    }

    lemma TheMarket(n: MarketName)
      requires Valid() && n in markets
      ensures MarketOk(n)
    {
      if !MarketOk(n) {
        assert false;
      }
    }

    // -------------------------------------------------------------- making a controller

    /** One empty market per configured one. */
    static method NewMarkets(cfg: Config) returns (markets: map<MarketName, Market>)
      ensures markets.Keys == cfg.confs.Keys
      ensures forall n | n in markets :: fresh(markets[n]) && markets[n].conf == cfg.confs[n] && markets[n].IsBlank()
      ensures forall n, m | n in markets && m in markets && n != m :: markets[n] != markets[m]
    {
      markets := map[];
      var todo := cfg.confs.Keys;
      while todo != {}
        invariant todo <= cfg.confs.Keys && markets.Keys == cfg.confs.Keys - todo
        invariant forall n | n in markets :: fresh(markets[n]) && markets[n].conf == cfg.confs[n] && markets[n].IsBlank()
        invariant forall n, m | n in markets && m in markets && n != m :: markets[n] != markets[m]
        decreases |todo|
      {
        var n := AnyOf(todo);
        var market := new Market(cfg.confs[n]);
        markets := markets[n := market];
        todo := todo - {n};
      }
    }

    lemma BlankMarkets()
      requires markets.Keys == cfg.confs.Keys && model == Genesis(cfg).exchange
      requires forall n | n in markets :: markets[n] in repr && markets[n].conf == cfg.confs[n] && markets[n].IsBlank()
      requires forall n, m | n in markets && m in markets && n != m :: markets[n] != markets[m]
      ensures forall n {:trigger MarketOk(n)} | n in markets :: MarketOk(n)
      ensures forall n, m {:trigger Separate(n, m)} | n in markets && m in markets :: Separate(n, m)
    {
      forall n | n in markets
        ensures MarketOk(n) && markets[n].Cells() == {}
      {
        markets[n].BlankIsValid();
      }
    }

    constructor (cfg: Config)
      ensures Valid() && fresh(repr) && this.cfg == cfg && model == Genesis(cfg).exchange && log == [] && persistor.events == []
    {
      this.cfg := cfg;
      var ms := NewMarkets(cfg);
      markets := ms;
      balanceManager := new BalanceManager();
      updateController := new BalanceUpdateController();
      sequencer := new Sequencer();
      persistor := new Persistor(true);
      dummyPersistor := new Persistor(false);
      log := [];
      model := Genesis(cfg).exchange;
      new;
      repr := {this, balanceManager, updateController, sequencer, persistor, dummyPersistor} + ms.Values;
      BlankMarkets();
    }

    // -------------------------------------------------------------- counting

    method CountIn(n: MarketName, user: Uuid, ghost seen: map<MarketName, Book>) returns (count: nat)
      requires Valid() && n in markets && n !in seen
      ensures OpenOrders(seen[n := model.books[n]], user) == OpenOrders(seen, user) + count
    {
      TheMarket(n);
      count := markets[n].GetOrderNumOfUser(user);
      Sums.SumUpdate(seen, n, model.books[n], CountWeight(user));
    }

    /** Sums up how many open orders the user has, market by market. */
    method OrderNumOfUser(user: Uuid) returns (total: nat)
      requires Valid()
      ensures total == OpenOrders(model.books, user)
    {
      total := 0;
      var todo := markets.Keys;
      ghost var seen: map<MarketName, Book> := map[];
      while todo != {}
        invariant todo <= markets.Keys && seen == model.books - todo
        invariant total == OpenOrders(seen, user)
        decreases |todo|
      {
        var n := AnyOf(todo);
        var count := CountIn(n, user, seen);
        seen := seen[n := model.books[n]];
        total := total + count;
        todo := todo - {n};
      }
      assert seen == model.books;
    }

    // -------------------------------------------------------------- one market's operation

    /** A market that nothing has touched is as it was. */
    twostate lemma Untouched(new m: MarketName)
      requires m in markets && old(MarketOk(m)) && unchanged(markets[m]) && (forall c | c in old(markets[m].Cells()) :: unchanged(c))
      requires old(repr) <= repr && m in model.books && model.books[m] == old(model.books[m])
      ensures MarketOk(m) && markets[m].Cells() == old(markets[m].Cells())
    {
    }

    /** What is sound about every market at the start of an operation on market `n`. */
    twostate lemma OthersUntouched(new n: MarketName, new m: MarketName)
      requires old(Valid()) && n in markets && m in markets && m != n
      requires markets[m] != markets[n] ==> unchanged(markets[m])
      requires forall c: OrderCell | old(allocated(c)) && c !in old(markets[n].Cells()) :: unchanged(c)
      requires old(repr) <= repr && m in model.books && model.books[m] == old(model.books[m])
      ensures MarketOk(m) && markets[m].Cells() == old(markets[m].Cells()) && old(Separate(n, m))
    {
      if !old(MarketOk(m)) || !old(Separate(n, m)) {
        assert false;
      }
      Untouched(m);
    }

    twostate lemma StaySeparate(new n: MarketName, new x: MarketName, new y: MarketName)
      requires old(Valid()) && n in markets && x in markets && y in markets
      requires markets[x] in repr && markets[y] in repr
      requires x != n ==> markets[x].Cells() == old(markets[x].Cells())
      requires y != n ==> markets[y].Cells() == old(markets[y].Cells())
      requires fresh(markets[n].Cells() - old(markets[n].Cells()))
      ensures Separate(x, y)
    {
      if !old(Separate(x, y)) {
        assert false;
      }
    }

    /** Takes one market's new state, and the ledger's, over into the model. */
    ghost method TakeOver(n: MarketName, v: Venue)
      requires n in markets && n in model.books && v == markets[n].VenueNow(sequencer, balanceManager, updateController)
      modifies `model, `repr
      ensures model.books == old(model.books)[n := markets[n].Abs()] && LedgerOk()
      ensures model == WithVenue(old(model), n, v)
      ensures repr == old(repr) + markets[n].Cells()
      ensures forall m | m in markets :: unchanged(markets[m])
    {
      model := WithVenue(model, n, v);
      repr := repr + markets[n].Cells();
    }

    lemma VenueIs(n: MarketName)
      requires Valid() && n in markets
      ensures n in model.books && markets[n].VenueNow(sequencer, balanceManager, updateController) == VenueOf(model, n)
    {
      TheMarket(n);
    }

    twostate lemma ChangedIsOk(new n: MarketName)
      requires old(Valid()) && n in markets && markets[n].Valid() && n in model.books
      requires model.books[n] == markets[n].Abs() && repr == old(repr) + markets[n].Cells()
      ensures MarketOk(n)
    {
      if !old(MarketOk(n)) {
        assert false;
      }
    }

    twostate lemma ReprGrows(new n: MarketName)
      requires old(Valid()) && n in markets && fresh(markets[n].Cells() - old(markets[n].Cells()))
      requires repr == old(repr) + markets[n].Cells()
      ensures fresh(repr - old(repr))
    {
      if !old(MarketOk(n)) {
        assert false;
      }
    }

    twostate lemma MarketsStayOk(new n: MarketName)
      requires old(Valid()) && n in markets && markets[n].Valid()
      requires forall m | m in markets && markets[m] != markets[n] :: unchanged(markets[m])
      requires forall c: OrderCell | old(allocated(c)) && c !in old(markets[n].Cells()) :: unchanged(c)
      requires model.books == old(model.books)[n := markets[n].Abs()] && repr == old(repr) + markets[n].Cells()
      ensures forall m | m in markets :: MarketOk(m) && (m != n ==> markets[m].Cells() == old(markets[m].Cells()))
    {
      ChangedIsOk(n);
      forall m | m in markets
        ensures MarketOk(m) && (m != n ==> markets[m].Cells() == old(markets[m].Cells()))
      {
        if m != n {
          OthersUntouched(n, m);
        }
      }
    }

    twostate lemma MarketsStaySeparate(new n: MarketName)
      requires old(Valid()) && n in markets && fresh(markets[n].Cells() - old(markets[n].Cells()))
      requires forall m | m in markets :: MarketOk(m) && (m != n ==> markets[m].Cells() == old(markets[m].Cells()))
      ensures forall x, y | x in markets && y in markets :: Separate(x, y)
    {
      forall x, y | x in markets && y in markets
        ensures Separate(x, y)
      {
        StaySeparate(n, x, y);
      }
    }

    /** After one market's operation, told to the model, the controller is sound again. */
    twostate lemma OneChanged(new n: MarketName)
      requires old(Valid()) && n in markets && markets[n].Valid() && LedgerOk()
      requires forall m | m in markets && markets[m] != markets[n] :: unchanged(markets[m])
      requires forall c: OrderCell | old(allocated(c)) && c !in old(markets[n].Cells()) :: unchanged(c)
      requires fresh(markets[n].Cells() - old(markets[n].Cells()))
      requires model.books == old(model.books)[n := markets[n].Abs()] && repr == old(repr) + markets[n].Cells()
      ensures Valid() && fresh(repr - old(repr))
    {
      ReprGrows(n);
      MarketsStayOk(n);
      MarketsStaySeparate(n);
    }

    method CallPut(p: Persistor, n: MarketName, input: OrderInput, user: Uuid, ghost v: Venue, ghost out: PutResult)
      returns (r: Result<Order, PutError>)
      requires n in markets && n in cfg.confs && markets[n].conf == cfg.confs[n] && markets[n].Valid()
      requires v == markets[n].VenueNow(sequencer, balanceManager, updateController) && VenueOk(cfg.confs[n], v) && Sensible(input)
      requires out == Matching.PutOrder(cfg.confs[n], v, input, user)
      modifies markets[n], markets[n].Cells(), balanceManager, updateController, sequencer, p
      ensures markets[n].Valid() && fresh(markets[n].Cells() - old(markets[n].Cells()))
      ensures !out.Crashed? && r == PutAnswer(out)
      ensures markets[n].VenueNow(sequencer, balanceManager, updateController) == VenueAfter(v, out)
      ensures p.events == old(Heard(p, out))
      ensures forall m | m in markets && markets[m] != markets[n] :: unchanged(markets[m])
      ensures forall c: OrderCell | old(allocated(c)) && c !in old(markets[n].Cells()) :: unchanged(c)
    {
      r := markets[n].PutOrder(sequencer, balanceManager, updateController, p, input, user, v);
    }

    /** `put_order` of one market, on the controller's own objects; `out` is what it ought to do. */
    method PutAt(p: Persistor, n: MarketName, input: OrderInput, user: Uuid, ghost v: Venue, ghost out: PutResult)
      returns (r: Result<Order, PutError>)
      requires Valid() && n in markets && p in repr && v == VenueOf(model, n) && VenueOk(cfg.confs[n], v) && Sensible(input)
      requires out == Matching.PutOrder(cfg.confs[n], v, input, user)
      modifies `model, `repr, markets[n], markets[n].Cells(), balanceManager, updateController, sequencer, p
      ensures Valid() && fresh(repr - old(repr))
      ensures !out.Crashed? && r == PutAnswer(out) && model == WithVenue(old(model), n, VenueAfter(v, out))
      ensures p.events == old(Heard(p, out))
    {
      VenueIs(n);
      TheMarket(n);
      r := CallPut(p, n, input, user, v, out);
      TakeOver(n, VenueAfter(v, out));
      OneChanged(n);
    }

    method PutListed(isReal: bool, n: MarketName, input: OrderInput, user: Uuid, ghost e: Exchange, ghost out: PutResult)
      returns (r: Result<Order, PutError>)
      requires Valid() && n in markets && e == model && VenueOk(cfg.confs[n], VenueOf(e, n)) && Sensible(input)
      requires out == Matching.PutOrder(cfg.confs[n], VenueOf(e, n), input, user)
      modifies repr
      ensures Valid() && fresh(repr - old(repr)) && log == old(log)
      ensures !out.Crashed? && r == PutAnswer(out) && model == WithVenue(e, n, VenueAfter(VenueOf(e, n), out))
      ensures persistor.events == old(Recorded(isReal, persistor.events, EventsOf(out)))
    {
      TheMarket(n);
      var p := if isReal then persistor else dummyPersistor;
      r := PutAt(p, n, input, user, VenueOf(e, n), out);
    }

    method PutUnderLimit(isReal: bool, put: PutRequest, user: Uuid, ghost e: Exchange) returns (response: Response)
      requires Valid() && e == model && ExchangeOk(cfg, e) && Sensible(put.input)
      requires put.market in markets && OpenOrders(e.books, user) != cfg.userOrderLimit
      modifies repr
      ensures Valid() && fresh(repr - old(repr)) && log == old(log)
      ensures model == PutOne(cfg, e, user, put).exchange && response == PutOne(cfg, e, user, put).response
      ensures persistor.events == old(Recorded(isReal, persistor.events, PutOne(cfg, e, user, put).events))
    {
      VenueOfIsOk(cfg, e, put.market);
      ghost var out := Matching.PutOrder(cfg.confs[put.market], VenueOf(e, put.market), put.input, user);
      var r := PutListed(isReal, put.market, put.input, user, e, out);
      PutOneIs(cfg, e, user, put);
      response := if r.Ok? then Accept else Reject;
    }

    /** Places one order, unless the user has too many open ones already. */
    method PutOrder(isReal: bool, put: PutRequest, user: Uuid, ghost e: Exchange) returns (response: Response)
      requires Valid() && e == model && ExchangeOk(cfg, e) && Sensible(put.input)
      modifies repr
      ensures Valid() && fresh(repr - old(repr)) && log == old(log)
      ensures model == PutOne(cfg, e, user, put).exchange && response == PutOne(cfg, e, user, put).response
      ensures persistor.events == old(Recorded(isReal, persistor.events, PutOne(cfg, e, user, put).events))
    {
      if put.market !in markets {
        return Reject;
      }
      var total := OrderNumOfUser(user);
      if total == cfg.userOrderLimit {
        return Reject;
      }
      response := PutUnderLimit(isReal, put, user, e);
    }

    // -------------------------------------------------------------- finishing

    method CallCancelAll(p: Persistor, n: MarketName, user: Uuid, ghost e: Exchange) returns (total: nat)
      requires Valid() && n in markets && p in repr && e == model
      modifies `model, `repr, markets[n], balanceManager, p
      ensures Valid() && fresh(repr - old(repr))
      ensures Listed(cfg, e, n) && model == CancelAll(cfg, e, user, n).exchange
      ensures p.events == old(p.Told(CancelAll(cfg, e, user, n).events))
      ensures total == BookCount(e.books[n], user)
    {
      VenueIs(n);
      TheMarket(n);
      total := markets[n].CancelAllForUser(balanceManager, p, user);
      TakeOver(n, markets[n].VenueNow(sequencer, balanceManager, updateController));
      OneChanged(n);
    }

    /** The venue after one order, found by its id, is finished. */
    ghost function VenueWithout(v: Venue, n: MarketName, id: nat): Venue
      requires n in cfg.confs && Find(v.book, id).Some?
    {
      var (book, balances) := Finish(cfg.confs[n], v.book, v.funds.balances, Find(v.book, id).value);
      Venue(book, v.funds.(balances := balances), v.counters)
    }

    method CancelAt(p: Persistor, n: MarketName, id: nat, ghost v: Venue)
      requires n in markets && n in cfg.confs && markets[n].conf == cfg.confs[n] && markets[n].Valid()
      requires v == markets[n].VenueNow(sequencer, balanceManager, updateController) && Find(v.book, id).Some?
      modifies markets[n], balanceManager, p
      ensures markets[n].Valid() && markets[n].Cells() <= old(markets[n].Cells())
      ensures markets[n].VenueNow(sequencer, balanceManager, updateController) == VenueWithout(v, n, id)
      ensures p.events == old(p.Told([OrderEvent(Find(v.book, id).value, FINISH)]))
    {
      markets[n].IndexedMeansInBook(id);
      FindLocates(v.book, id);
      var _ := markets[n].CancelOrder(balanceManager, p, id);
    }

    method CallCancel(p: Persistor, n: MarketName, id: nat, ghost e: Exchange)
      requires Valid() && n in markets && p in repr && e == model && Listed(cfg, e, n) && Find(e.books[n], id).Some?
      modifies `model, `repr, markets[n], balanceManager, p
      ensures Valid() && fresh(repr - old(repr))
      ensures model == FinishIn(cfg, e, n, [id]).exchange
      ensures p.events == old(p.Told(FinishIn(cfg, e, n, [id]).events))
    {
      VenueIs(n);
      TheMarket(n);
      FinishesOne(cfg, e, n, id, Find(e.books[n], id).value);
      ghost var v := VenueWithout(VenueOf(e, n), n, id);
      CancelAt(p, n, id, VenueOf(e, n));
      TakeOver(n, v);
      OneChanged(n);
    }

    method CancelAllOf(isReal: bool, n: MarketName, user: Uuid, ghost e: Exchange) returns (total: nat)
      requires Valid() && n in markets && e == model
      modifies repr
      ensures Valid() && fresh(repr - old(repr)) && log == old(log)
      ensures Listed(cfg, e, n) && model == CancelAll(cfg, e, user, n).exchange && total == BookCount(e.books[n], user)
      ensures persistor.events == old(Recorded(isReal, persistor.events, CancelAll(cfg, e, user, n).events))
    {
      TheMarket(n);
      if isReal {
        total := CallCancelAll(persistor, n, user, e);
      } else {
        total := CallCancelAll(dummyPersistor, n, user, e);
      }
    }

    method LookUp(n: MarketName, id: nat) returns (order: Option<Order>)
      requires Valid() && n in markets
      ensures n in model.books && order == Find(model.books[n], id)
    {
      TheMarket(n);
      markets[n].IndexedMeansInBook(id);
      NotFound(model.books[n], id);
      order := markets[n].Get(id);
    }

    method CancelOrder(isReal: bool, n: MarketName, id: nat, user: Uuid, ghost e: Exchange) returns (response: Response)
      requires Valid() && e == model
      modifies repr
      ensures Valid() && fresh(repr - old(repr)) && log == old(log)
      ensures model == CancelOne(cfg, e, user, n, id).exchange && response == CancelOne(cfg, e, user, n, id).response
      ensures persistor.events == old(Recorded(isReal, persistor.events, CancelOne(cfg, e, user, n, id).events))
    {
      if n !in markets {
        return Reject;
      }
      var order := LookUp(n, id);
      if order == None || order.value.user != user {
        return Reject;
      }
      TheMarket(n);
      if isReal {
        CallCancel(persistor, n, id, e);
      } else {
        CallCancel(dummyPersistor, n, id, e);
      }
      response := Accept;
    }

    // -------------------------------------------------------------- batches

    /** How far the reset loop has come. */
    ghost predicate Resetting(e: Exchange, n: MarketName, user: Uuid, orders: seq<PutRequest>, i: nat, told: seq<Event>, all: Effect)
      requires i <= |orders|
    {
      Continues(all, told, ResetAll(cfg, e, user, n, orders[i..]))
    }

    method ResetNext(isReal: bool, n: MarketName, user: Uuid, orders: seq<PutRequest>, i: nat,
                     ghost record: seq<Event>, ghost told: seq<Event>, ghost all: Effect) returns (ghost told': seq<Event>)
      requires Valid() && n in markets && i < |orders| && orders[i].market == n && persistor.events == Recorded(isReal, record, told)
      requires Resetting(model, n, user, orders, i, told, all)
      modifies repr
      ensures Valid() && fresh(repr - old(repr)) && log == old(log)
      ensures Resetting(model, n, user, orders, i + 1, told', all)
      ensures persistor.events == Recorded(isReal, record, told')
    {
      ghost var e := model;
      ghost var more := CancelAll(cfg, e, user, n).events;
      ResetGoesOn(cfg, e, user, n, orders, i, told, all);
      RecordedTwice(isReal, record, told, more);
      told' := told + more;
      var _ := CancelAllOf(isReal, n, user, e);
    }

    lemma ResetStops(e: Exchange, n: MarketName, user: Uuid, orders: seq<PutRequest>, i: nat, told: seq<Event>, all: Effect)
      requires i <= |orders| && Resetting(e, n, user, orders, i, told, all)
      requires i == |orders| || orders[i].market != n
      ensures all == Effect(e, if i < |orders| then Reject else Accept, told)
    {
      ResetEnds(cfg, e, user, n, orders, i, told, all);
    }

    /** The reset loop of a batch. */
    method ResetLoop(isReal: bool, n: MarketName, user: Uuid, orders: seq<PutRequest>, ghost record: seq<Event>, ghost all: Effect)
      returns (response: Response)
      requires Valid() && n in markets && Resetting(model, n, user, orders, 0, [], all) && persistor.events == Recorded(isReal, record, [])
      modifies repr
      ensures Valid() && fresh(repr - old(repr)) && log == old(log)
      ensures model == all.exchange && response == all.response && persistor.events == Recorded(isReal, record, all.events)
    {
      ghost var told: seq<Event> := [];
      var i := 0;
      while i < |orders| && orders[i].market == n
        invariant 0 <= i <= |orders| && Valid() && fresh(repr - old(repr)) && log == old(log)
        invariant Resetting(model, n, user, orders, i, told, all)
        invariant persistor.events == Recorded(isReal, record, told)
      {
        told := ResetNext(isReal, n, user, orders, i, record, told, all);
        i := i + 1;
      }
      ResetStops(model, n, user, orders, i, told, all);
      response := if i < |orders| then Reject else Accept;
    }

    method ResetOrders(isReal: bool, n: MarketName, user: Uuid, orders: seq<PutRequest>, ghost e: Exchange) returns (response: Response)
      requires Valid() && n in markets && e == model
      modifies repr
      ensures Valid() && fresh(repr - old(repr)) && log == old(log)
      ensures model == ResetAll(cfg, e, user, n, orders).exchange && response == ResetAll(cfg, e, user, n, orders).response
      ensures persistor.events == old(Recorded(isReal, persistor.events, ResetAll(cfg, e, user, n, orders).events))
    {
      ghost var all := ResetAll(cfg, e, user, n, orders);
      BatchBegins(isReal, all, persistor.events, orders);
      response := ResetLoop(isReal, n, user, orders, persistor.events, all);
    }

    /** How far a batch has come: on its way, or ended by a refused order. */
    ghost predicate UnderWay(going: bool, e: Exchange, n: MarketName, user: Uuid, orders: seq<PutRequest>, i: nat, told: seq<Event>, all: Effect)
      requires i <= |orders|
    {
      if going then ExchangeOk(cfg, e) && Continues(all, told, PutAll(cfg, e, user, n, orders[i..]))
      else all == Effect(e, Accept, told)
    }

    lemma BatchEnds(going: bool, e: Exchange, n: MarketName, user: Uuid, orders: seq<PutRequest>, i: nat, told: seq<Event>, all: Effect)
      requires i <= |orders| && UnderWay(going, e, n, user, orders, i, told, all)
      requires going ==> i == |orders| || orders[i].market != n
      ensures all == Effect(e, if going && i < |orders| then Reject else Accept, told)
    {
      if going {
        PutsEnd(cfg, e, user, n, orders, i, told, all);
      }
    }

    method PutNext(isReal: bool, n: MarketName, user: Uuid, orders: seq<PutRequest>, i: nat,
                   ghost record: seq<Event>, ghost told: seq<Event>, ghost all: Effect) returns (going: bool, ghost told': seq<Event>)
      requires Valid() && i < |orders| && orders[i].market == n && Sensible(orders[i].input)
      requires persistor.events == Recorded(isReal, record, told)
      requires UnderWay(true, model, n, user, orders, i, told, all)
      modifies repr
      ensures Valid() && fresh(repr - old(repr)) && log == old(log)
      ensures UnderWay(going, model, n, user, orders, i + 1, told', all)
      ensures persistor.events == Recorded(isReal, record, told')
    {
      ghost var e := model;
      ghost var more := PutOne(cfg, e, user, orders[i]).events;
      PutsGoOn(cfg, e, user, n, orders, i, told, all);
      PutOneIsSound(cfg, e, user, orders[i]);
      RecordedTwice(isReal, record, told, more);
      told' := told + more;
      var response := PutOrder(isReal, orders[i], user, e);
      going := response == Accept;
    }

    /** The placing loop of a batch: a refused order ends it, an order for another market fails it. */
    method PutOrders(isReal: bool, n: MarketName, user: Uuid, orders: seq<PutRequest>, ghost e: Exchange) returns (response: Response)
      requires Valid() && e == model && ExchangeOk(cfg, e) && forall p | p in orders :: Sensible(p.input)
      modifies repr
      ensures Valid() && fresh(repr - old(repr)) && log == old(log)
      ensures model == PutAll(cfg, e, user, n, orders).exchange && response == PutAll(cfg, e, user, n, orders).response
      ensures persistor.events == old(Recorded(isReal, persistor.events, PutAll(cfg, e, user, n, orders).events))
    {
      ghost var told: seq<Event>, all, record := [], PutAll(cfg, e, user, n, orders), persistor.events;
      var i, going := 0, true;
      BatchBegins(isReal, all, record, orders);
      while going && i < |orders| && orders[i].market == n
        invariant 0 <= i <= |orders| && Valid() && fresh(repr - old(repr)) && log == old(log)
        invariant UnderWay(going, model, n, user, orders, i, told, all)
        invariant persistor.events == Recorded(isReal, record, told)
      {
        going, told := PutNext(isReal, n, user, orders, i, record, told, all);
        i := i + 1;
      }
      BatchEnds(going, model, n, user, orders, i, told, all);
      response := if going && i < |orders| then Reject else Accept;
    }

    method PutAfterReset(isReal: bool, n: MarketName, user: Uuid, orders: seq<PutRequest>, ghost e: Exchange) returns (response: Response)
      requires Valid() && n in markets && e == model && ExchangeOk(cfg, e) && forall p | p in orders :: Sensible(p.input)
      modifies repr
      ensures Valid() && fresh(repr - old(repr)) && log == old(log)
      ensures model == PutBatch(cfg, e, user, n, true, orders).exchange && response == PutBatch(cfg, e, user, n, true, orders).response
      ensures persistor.events == old(Recorded(isReal, persistor.events, PutBatch(cfg, e, user, n, true, orders).events))
    {
      TheMarket(n);
      ghost var first := ResetAll(cfg, e, user, n, orders);
      ResetAllIsSound(cfg, e, user, n, orders);
      response := ResetOrders(isReal, n, user, orders, e);
      if response == Accept {
        RecordedTwice(isReal, old(persistor.events), first.events, PutAll(cfg, first.exchange, user, n, orders).events);
        response := PutOrders(isReal, n, user, orders, first.exchange);
      }
    }

    method PutBatchOf(isReal: bool, n: MarketName, reset: bool, user: Uuid, orders: seq<PutRequest>, ghost e: Exchange)
      returns (response: Response)
      requires Valid() && e == model && ExchangeOk(cfg, e) && forall p | p in orders :: Sensible(p.input)
      modifies repr
      ensures Valid() && fresh(repr - old(repr)) && log == old(log)
      ensures model == PutBatch(cfg, e, user, n, reset, orders).exchange && response == PutBatch(cfg, e, user, n, reset, orders).response
      ensures persistor.events == old(Recorded(isReal, persistor.events, PutBatch(cfg, e, user, n, reset, orders).events))
    {
      RecordedNothing(isReal, persistor.events);
      if n !in markets {
        return Reject;
      }
      if reset {
        response := PutAfterReset(isReal, n, user, orders, e);
      } else {
        Begins(PutAll(cfg, e, user, n, orders));
        TheMarket(n);
        response := PutOrders(isReal, n, user, orders, e);
      }
    }

    // -------------------------------------------------------------- the ledger alone

    /** Markets do not notice what happens to the ledger. */
    twostate lemma LedgerChanged()
      requires old(Valid()) && repr == old(repr) && model.books == old(model.books) && LedgerOk()
      requires forall m | m in markets :: unchanged(markets[m])
      requires forall c: OrderCell | old(allocated(c)) && c in old(repr) :: unchanged(c)
      ensures Valid()
    {
      forall m | m in markets
        ensures MarketOk(m) && markets[m].Cells() == old(markets[m].Cells())
      {
        if !old(MarketOk(m)) {
          assert false;
        }
        Untouched(m);
      }
      forall x, y | x in markets && y in markets
        ensures Separate(x, y)
      {
        if !old(Separate(x, y)) {
          assert false;
        }
      }
    }

    ghost method SetModel(e: Exchange)
      modifies `model
      ensures model == e
    {
      model := e;
    }

    method ChangeBalance(p: Persistor, q: UpdateParams, ghost e: Exchange) returns (r: Result<(), UpdateError>)
      requires Valid() && e == model && p in repr && q.key.businessType in {Deposit, Withdraw}
      modifies `model, balanceManager, updateController, p
      ensures Valid()
      ensures match Ledger.UpdateUserBalance(e.funds, q)
              case Err(error) => r == Err(error) && model == e && p.events == old(p.events)
              case Ok(funds) =>
                && r.Ok? && model == e.(funds := funds)
                && p.events == old(p.Told(if q.change != 0 then [FundsEvent(q.key.user, q.key.asset, q.change)] else []))
    {
      r := updateController.UpdateUserBalance(balanceManager, p, q);
      SetModel(e.(funds := Funds(balanceManager.balances, updateController.cache)));
      LedgerChanged();
    }

    /** Rounds a deposit or withdrawal to what is shown of the asset and applies it. */
    method DepositOrWithdraw(isReal: bool, user: Uuid, asset: Asset, delta: Fixed, business: nat, id: nat, ghost e: Exchange)
      returns (response: Response)
      requires Valid() && e == model
      modifies repr
      ensures Valid() && repr == old(repr) && log == old(log)
      ensures model == UpdateBalance(cfg, e, user, asset, delta, business, id).exchange
      ensures response == UpdateBalance(cfg, e, user, asset, delta, business, id).response
      ensures persistor.events == old(Recorded(isReal, persistor.events, UpdateBalance(cfg, e, user, asset, delta, business, id).events))
    {
      RecordedNothing(isReal, persistor.events);
      if asset !in cfg.assets {
        return Reject;
      }
      var q := ChangeParams(user, asset, RoundedChange(cfg.assets[asset], delta), business, id);
      var r;
      if isReal {
        r := ChangeBalance(persistor, q, e);
      } else {
        r := ChangeBalance(dummyPersistor, q, e);
      }
      response := if r.Ok? then Accept else Reject;
    }

    /** `append_operation_log`. */
    method AppendOperationLog(user: Uuid, request: Request)
      requires Valid()
      modifies `log, `model, sequencer
      ensures Valid()
      ensures World(model, log, persistor.events, false) == Logged(old(World(model, log, persistor.events, false)), user, request)
    {
      var id := sequencer.NextOperationLogId();
      log := log + [LogEntry(id, user, request)];
      SetModel(model.(counters := model.counters.(operationLogId := id)));
      LedgerChanged();
    }

    ghost function WorldNow(): World
      reads this, persistor
    {
      World(model, log, persistor.events, false)
    }

    /** Does what a request asks, without logging it. */
    method Do(isReal: bool, request: Request, user: Uuid, ghost e: Exchange) returns (response: Response)
      requires Valid() && e == model && ExchangeOk(cfg, e) && SensibleRequest(request)
      modifies repr
      ensures Valid() && fresh(repr - old(repr)) && log == old(log)
      ensures model == Exec(cfg, e, user, request).exchange && response == Exec(cfg, e, user, request).response
      ensures persistor.events == old(Recorded(isReal, persistor.events, Exec(cfg, e, user, request).events))
    {
      match request
      case BalanceUpdate(asset, delta, business, id) => response := DepositOrWithdraw(isReal, user, asset, delta, business, id, e);
      case OrderPut(put) => response := PutOrder(isReal, put, user, e);
      case BatchOrderPut(n, reset, orders) => response := PutBatchOf(isReal, n, reset, user, orders, e);
      case OrderCancel(n, id) => response := CancelOrder(isReal, n, id, user, e);
      case OrderCancelAll(n) => response := CancelAllOrders(isReal, n, user, e);
    }

    method CancelAllOrders(isReal: bool, n: MarketName, user: Uuid, ghost e: Exchange) returns (response: Response)
      requires Valid() && e == model
      modifies repr
      ensures Valid() && fresh(repr - old(repr)) && log == old(log)
      ensures model == CancelAll(cfg, e, user, n).exchange && response == CancelAll(cfg, e, user, n).response
      ensures persistor.events == old(Recorded(isReal, persistor.events, CancelAll(cfg, e, user, n).events))
    {
      RecordedNothing(isReal, persistor.events);
      if n !in markets {
        return Reject;
      }
      var _ := CancelAllOf(isReal, n, user, e);
      response := Accept;
    }

    /** Serves a live request: nothing if the log or the persistor cannot take it, and otherwise what
        it asks, told to the persistor, and logged if it was accepted.  A step of module Exchange. */
    method Serve(available: bool, request: Request, user: Uuid) returns (response: Response)
      requires Valid() && ExchangeOk(cfg, model) && SensibleRequest(request)
      modifies repr
      ensures Valid() && fresh(repr - old(repr)) && ExchangeOk(cfg, model)
      ensures WorldNow() == Next(cfg, old(WorldNow()), Input.Serve(user, request, available))
      ensures response == if available then Exec(cfg, old(model), user, request).response else Reject
    {
      if !available {
        return Reject;
      }
      ghost var e := model;
      ExecIsSound(cfg, e, user, request);
      response := Do(true, request, user, e);
      if response == Accept {
        AppendOperationLog(user, request);
      }
    }

    /** Replays a logged request: the same, except that neither the persistor nor the log hears of it. */
    method Replay(entry: LogEntry) returns (response: Response)
      requires Valid() && ExchangeOk(cfg, model) && SensibleRequest(entry.request)
      modifies repr
      ensures Valid() && fresh(repr - old(repr)) && ExchangeOk(cfg, model)
      ensures var r := Exec(cfg, old(model), entry.user, entry.request); model == r.exchange && response == r.response
      ensures log == old(log) && persistor.events == old(persistor.events)
    {
      ghost var e := model;
      ExecIsSound(cfg, e, entry.user, entry.request);
      response := Do(false, entry.request, entry.user, e);
    }

    /** Replays the entries one after the other, as recovery does; a refused one would be a crash. */
    method ReplayAll(entries: seq<LogEntry>) returns (ok: bool)
      requires Valid() && ExchangeOk(cfg, model) && forall entry | entry in entries :: SensibleRequest(entry.request)
      modifies repr
      ensures Valid() && fresh(repr - old(repr)) && log == old(log) && persistor.events == old(persistor.events)
      ensures ok <==> R.Replayed(cfg, old(model), entries).Some?
      ensures ok ==> ExchangeOk(cfg, model) && model == R.Replayed(cfg, old(model), entries).value
    {
      var i := 0;
      ghost var e := model;
      assert entries[0..] == entries;
      while i < |entries|
        invariant 0 <= i <= |entries| && Valid() && fresh(repr - old(repr)) && log == old(log) && persistor.events == old(persistor.events)
        invariant ExchangeOk(cfg, model) && R.Replayed(cfg, model, entries[i..]) == R.Replayed(cfg, e, entries)
      {
        assert entries[i..][1..] == entries[i + 1..];
        var response := Replay(entries[i]);
        if response != Accept {
          return false;
        }
        i := i + 1;
      }
      return true;
    }

    /** Takes up the log counter where the log ends. */
    method SetOperationLogId(id: nat)
      requires Valid()
      modifies `model, sequencer
      ensures Valid() && model == old(model).(counters := old(model).counters.(operationLogId := id))
    {
      sequencer.operationLogId := id;
      SetModel(model.(counters := model.counters.(operationLogId := id)));
      LedgerChanged();
    }
  }
}
