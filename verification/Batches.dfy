/** What a batch of orders comes to: one cancellation of all the user's orders if it asks for a reset,
    then its orders one after the other, up to the first that is refused. */
module Batches {
  import opened Types
  import opened Orders
  import opened Matching
  import opened BookInvariant
  import opened VenueInvariant
  import opened Exchange
  import opened ExchangeInvariant
  import opened RefusedBatches
  import opened Cancellation

  // ---------------------------------------------------------------- taking orders one by one

  type Step = (Exchange, PutRequest) -> Effect

  /** The first `k` orders, one after the other, each as a request of its own. */
  ghost function AfterPuts(step: Step, e: Exchange, orders: seq<PutRequest>, k: nat): Effect
    requires k <= |orders|
  {
    if k == 0 then Effect(e, Accept, [])
    else
      var first := AfterPuts(step, e, orders, k - 1);
      Then(first, step(first.exchange, orders[k - 1]))
  }

  /** Order `i` is for this market and, those before it having been placed, is accepted. */
  ghost predicate IsPlaced(step: Step, e: Exchange, n: MarketName, orders: seq<PutRequest>, i: nat)
    requires i < |orders|
  {
    orders[i].market == n && step(AfterPuts(step, e, orders, i).exchange, orders[i]).response == Accept
  }

  /** The first `k` orders are placed, and order `k`, if any, is not. */
  ghost predicate StopsAt(step: Step, e: Exchange, n: MarketName, orders: seq<PutRequest>, k: nat)
  {
    && k <= |orders| && (forall i | 0 <= i < k :: IsPlaced(step, e, n, orders, i))
    && (k < |orders| ==> !IsPlaced(step, e, n, orders, k))
  }

  /** A loop that takes orders by this step, up to one that is not accepted or for another market. */
  ghost predicate Loops(step: Step, n: MarketName, loop: (Exchange, seq<PutRequest>) -> Effect)
  {
    && (forall e :: loop(e, []) == Effect(e, Accept, []))
    && (forall e, orders: seq<PutRequest> | |orders| > 0 && orders[0].market != n :: loop(e, orders) == Effect(e, Reject, []))
    && (forall e, orders: seq<PutRequest> | |orders| > 0 && orders[0].market == n ::
          && (step(e, orders[0]).response == Accept ==>
                loop(e, orders) == Then(step(e, orders[0]), loop(step(e, orders[0]).exchange, orders[1..])))
          && (step(e, orders[0]).response == Reject ==> loop(e, orders) == step(e, orders[0]).(response := Accept)))
  }

  lemma EmptyThen(first: Effect, e: Exchange, response: Response)
    requires e == first.exchange
    ensures Then(first, Effect(e, response, [])) == first.(response := response)
  {
    assert first.events + [] == first.events;
  }

  lemma NothingThen(e: Exchange, r: Effect)
    ensures Then(Effect(e, Accept, []), r) == r
  {
    assert [] + r.events == r.events;
  }

  lemma ThenThen(a: Effect, b: Effect, c: Effect)
    ensures Then(Then(a, b), c) == Then(a, Then(b, c))
  {
    Regroup(a.events, b.events, c.events);
  }

  /** From order `k` on, the loop stops somewhere, with the orders up to there placed. */
  lemma {:induction false} LoopStops(step: Step, n: MarketName, loop: (Exchange, seq<PutRequest>) -> Effect, e: Exchange, orders: seq<PutRequest>, k: nat)
    returns (stop: nat)
    requires Loops(step, n, loop) && k <= |orders| && forall i | 0 <= i < k :: IsPlaced(step, e, n, orders, i)
    ensures StopsAt(step, e, n, orders, stop) && k <= stop
    ensures var from, to := AfterPuts(step, e, orders, k), AfterPuts(step, e, orders, stop);
            Then(from, loop(from.exchange, orders[k..])) == Then(to, loop(to.exchange, orders[stop..]))
    decreases |orders| - k
  {
    stop := k;
    if k < |orders| && IsPlaced(step, e, n, orders, k) {
      var from := AfterPuts(step, e, orders, k);
      var put := step(from.exchange, orders[k]);
      assert orders[k..][1..] == orders[k + 1..];
      ThenThen(from, put, loop(put.exchange, orders[k + 1..]));
      stop := LoopStops(step, n, loop, e, orders, k + 1);
    }
  }

  /** What the loop comes to, when a refused order changes nothing. */
  lemma LoopPlaces(step: Step, n: MarketName, loop: (Exchange, seq<PutRequest>) -> Effect, e: Exchange, orders: seq<PutRequest>) returns (k: nat)
    requires Loops(step, n, loop)
    requires forall i | 0 <= i < |orders| ::
               var at := AfterPuts(step, e, orders, i).exchange;
               step(at, orders[i]).response != Accept ==> step(at, orders[i]) == Effect(at, Reject, [])
    ensures StopsAt(step, e, n, orders, k)
    ensures loop(e, orders)
         == AfterPuts(step, e, orders, k).(response := if k < |orders| && orders[k].market != n then Reject else Accept)
  {
    assert orders[0..] == orders;
    NothingThen(e, loop(e, orders));
    k := LoopStops(step, n, loop, e, orders, 0);
    var done := AfterPuts(step, e, orders, k);
    assert k < |orders| ==> orders[k..][0] == orders[k];
    assert k == |orders| ==> orders[k..] == [];
    EmptyThen(done, done.exchange, if k < |orders| && orders[k].market != n then Reject else Accept);
  }

  // ---------------------------------------------------------------- the placing loop

  ghost function Putting(cfg: Config, user: Uuid): Step
  {
    (e, put) => PutOne(cfg, e, user, put)
  }

  lemma PutAllLoops(cfg: Config, user: Uuid, n: MarketName, loop: (Exchange, seq<PutRequest>) -> Effect)
    requires forall e, orders :: loop(e, orders) == PutAll(cfg, e, user, n, orders)
    ensures Loops(Putting(cfg, user), n, loop)
  {
  }

  lemma RefusedPutIsNothing(cfg: Config, e: Exchange, user: Uuid, put: PutRequest)
    requires ExchangeOk(cfg, e) && Sensible(put.input)
    ensures PutOne(cfg, e, user, put).response != Accept ==> PutOne(cfg, e, user, put) == Effect(e, Reject, [])
  {
    PutOneIsSound(cfg, e, user, put);
  }

  lemma {:induction false} AfterPutsIsOk(cfg: Config, e: Exchange, user: Uuid, orders: seq<PutRequest>, k: nat)
    requires ExchangeOk(cfg, e) && k <= |orders| && forall p | p in orders :: Sensible(p.input)
    ensures ExchangeOk(cfg, AfterPuts(Putting(cfg, user), e, orders, k).exchange)
  {
    if k > 0 {
      AfterPutsIsOk(cfg, e, user, orders, k - 1);
      PutOneIsSound(cfg, AfterPuts(Putting(cfg, user), e, orders, k - 1).exchange, user, orders[k - 1]);
    }
  }

  lemma RefusalsDoNothing(cfg: Config, e: Exchange, user: Uuid, orders: seq<PutRequest>)
    requires ExchangeOk(cfg, e) && forall p | p in orders :: Sensible(p.input)
    ensures var step := Putting(cfg, user);
            forall i | 0 <= i < |orders| ::
              var at := AfterPuts(step, e, orders, i).exchange;
              step(at, orders[i]).response != Accept ==> step(at, orders[i]) == Effect(at, Reject, [])
  {
    forall i | 0 <= i < |orders|
      ensures var at := AfterPuts(Putting(cfg, user), e, orders, i).exchange;
              Putting(cfg, user)(at, orders[i]).response != Accept ==> Putting(cfg, user)(at, orders[i]) == Effect(at, Reject, [])
    {
      AfterPutsIsOk(cfg, e, user, orders, i);
      RefusedPutIsNothing(cfg, AfterPuts(Putting(cfg, user), e, orders, i).exchange, user, orders[i]);
    }
  }

  /** The placing loop: the orders before the first refused or stray one are placed and no other. */
  lemma PutAllPlaces(cfg: Config, e: Exchange, user: Uuid, n: MarketName, orders: seq<PutRequest>) returns (k: nat)
    requires ExchangeOk(cfg, e) && forall p | p in orders :: Sensible(p.input)
    ensures StopsAt(Putting(cfg, user), e, n, orders, k)
    ensures PutAll(cfg, e, user, n, orders)
         == AfterPuts(Putting(cfg, user), e, orders, k).(response := if k < |orders| && orders[k].market != n then Reject else Accept)
  {
    var loop := (e, orders) => PutAll(cfg, e, user, n, orders);
    PutAllLoops(cfg, user, n, loop);
    RefusalsDoNothing(cfg, e, user, orders);
    k := LoopPlaces(Putting(cfg, user), n, loop, e, orders);
  }

  // ---------------------------------------------------------------- the reset

  lemma {:induction false} CountsNone(s: seq<Order>, user: Uuid)
    requires forall o | o in s :: o.user != user
    ensures CountOf(s, user) == 0
  {
    if s != [] {
      assert s[|s| - 1] in s;
      CountsNone(s[..|s| - 1], user);
    }
  }

  lemma NoneLeftToCount(b: Book, user: Uuid)
    requires (forall o | o in b.asks :: o.user != user) && forall o | o in b.bids :: o.user != user
    ensures BookCount(b, user) == 0
  {
    CountsNone(b.asks, user);
    CountsNone(b.bids, user);
  }

  lemma CancelLeavesNone(cfg: Config, e: Exchange, user: Uuid, n: MarketName)
    requires ExchangeOk(cfg, e) && Listed(cfg, e, n)
    ensures n in CancelAll(cfg, e, user, n).exchange.books && BookCount(CancelAll(cfg, e, user, n).exchange.books[n], user) == 0
  {
    CancelAllServesUser(cfg, e, user, n);
    NoneLeftToCount(CancelAll(cfg, e, user, n).exchange.books[n], user);
  }

  lemma ResetUnfolds(cfg: Config, e: Exchange, user: Uuid, n: MarketName, orders: seq<PutRequest>)
    requires orders != [] && orders[0].market == n
    ensures var first := CancelAll(cfg, e, user, n);
            ResetAll(cfg, e, user, n, orders) == Then(first, ResetAll(cfg, first.exchange, user, n, orders[1..]))
  {
  }

  lemma ResetIsFirstCancel(cfg: Config, e: Exchange, user: Uuid, n: MarketName, orders: seq<PutRequest>)
    requires ExchangeOk(cfg, e) && Listed(cfg, e, n) && orders != [] && orders[0].market == n
    ensures var r, first := ResetAll(cfg, e, user, n, orders), CancelAll(cfg, e, user, n);
            r.exchange == first.exchange && r.events == first.events
  {
    var first := CancelAll(cfg, e, user, n);
    CancelLeavesNone(cfg, e, user, n);
    CancelAllIsSound(cfg, e, user, n);
    ResetNone(cfg, first.exchange, user, n, orders[1..]);
    ResetUnfolds(cfg, e, user, n, orders);
    assert first.events + [] == first.events;
  }

  /** What a batch is carried out on: the exchange, or, for a reset, the exchange without the user's
      orders in the market. */
  ghost function Cleared(cfg: Config, e: Exchange, user: Uuid, n: MarketName, reset: bool, orders: seq<PutRequest>): Effect
  {
    if reset && orders != [] && orders[0].market == n then CancelAll(cfg, e, user, n) else Effect(e, Accept, [])
  }

  /** Cancelling once per order of the batch is cancelling once. */
  lemma ResetIsOneCancel(cfg: Config, e: Exchange, user: Uuid, n: MarketName, orders: seq<PutRequest>)
    requires ExchangeOk(cfg, e) && Listed(cfg, e, n)
    ensures var r, cleared := ResetAll(cfg, e, user, n, orders), Cleared(cfg, e, user, n, true, orders);
            && r.exchange == cleared.exchange && r.events == cleared.events
            && r.response == if AllFor(n, orders) then Accept else Reject
  {
    ResetRefusesStrays(cfg, e, user, n, orders);
    if orders != [] && orders[0].market == n {
      ResetIsFirstCancel(cfg, e, user, n, orders);
    }
  }

  lemma BatchUnfolds(cfg: Config, e: Exchange, user: Uuid, n: MarketName, reset: bool, orders: seq<PutRequest>)
    requires ExchangeOk(cfg, e) && Listed(cfg, e, n)
    ensures var cleared := Cleared(cfg, e, user, n, reset, orders);
            && ExchangeOk(cfg, cleared.exchange)
            && PutBatch(cfg, e, user, n, reset, orders)
               == if reset && !AllFor(n, orders) then cleared.(response := Reject)
                  else Then(cleared, PutAll(cfg, cleared.exchange, user, n, orders))
  {
    ResetIsOneCancel(cfg, e, user, n, orders);
    CancelAllIsSound(cfg, e, user, n);
  }

  /** A batch is refused outright if its market does not exist.  Otherwise, after the reset, if it asks
      for one and every order is for the market, its orders are placed up to the first that is refused
      or for another market, and none after that; it is accepted exactly if it came to no order for
      another market. */
  lemma BatchPlaces(cfg: Config, e: Exchange, user: Uuid, n: MarketName, reset: bool, orders: seq<PutRequest>) returns (k: nat)
    requires ExchangeOk(cfg, e) && forall p | p in orders :: Sensible(p.input)
    ensures var r, cleared := Exec(cfg, e, user, BatchOrderPut(n, reset, orders)), Cleared(cfg, e, user, n, reset, orders);
            if !Listed(cfg, e, n) then r == Effect(e, Reject, [])
            else if reset && !AllFor(n, orders) then r == cleared.(response := Reject)
            else
              && StopsAt(Putting(cfg, user), cleared.exchange, n, orders, k)
              && r == Then(cleared, AfterPuts(Putting(cfg, user), cleared.exchange, orders, k))
                      .(response := if k < |orders| && orders[k].market != n then Reject else Accept)
  {
    k := 0;
    if Listed(cfg, e, n) {
      BatchUnfolds(cfg, e, user, n, reset, orders);
      k := PutAllPlaces(cfg, Cleared(cfg, e, user, n, reset, orders).exchange, user, n, orders);
    }
  }
}
