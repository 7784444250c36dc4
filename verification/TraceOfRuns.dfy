/** The story every run tells of every order: read from the journal alone, an order is known to be
    open exactly while it is in a book, and with exactly the fills it has there. */
module TraceOfRuns {
  import opened Types
  import opened Orders
  import opened Ledger
  import opened Matching
  import opened MatchLoop
  import opened BookInvariant
  import opened VenueInvariant
  import opened Exchange
  import opened ExchangeInvariant
  import opened Trace

  /** Whether an order is in some book. */
  ghost predicate InABook(books: map<MarketName, Book>, id: nat)
  {
    exists n :: n in books && id in BookIds(books[n])
  }

  /** What the journal tells of an order fits the state: not yet created, open and in its book with
      the same fills, or finished. */
  ghost predicate Story(l: Life, id: nat, e: Exchange)
  {
    && (forall n | n in e.books :: BookKnown(l, id, e.books[n]))
    && (id == 0 || e.counters.orderId < id ==> l == Unborn)
    && (0 < id <= e.counters.orderId && !InABook(e.books, id) ==> l == Closed)
  }

  /** It follows that the trace says where the order is. */
  lemma StorySaysWhere(l: Life, id: nat, e: Exchange)
    requires Story(l, id, e)
    ensures l != Broken
    ensures l.Open? <==> InABook(e.books, id)
    ensures l == Unborn <==> id == 0 || e.counters.orderId < id
  {
    if InABook(e.books, id) {
      var n :| n in e.books && id in BookIds(e.books[n]);
      KnownIfIn(l, id, e.books[n]);
    }
  }

  lemma KnownIfIn(l: Life, id: nat, b: Book)
    requires BookKnown(l, id, b) && id in BookIds(b)
    ensures l.Open?
  {
  }

  lemma UnknownIsAbsent(l: Life, id: nat, b: Book)
    requires id !in BookIds(b)
    ensures BookKnown(l, id, b)
  {
    KnownNowhere(l, id, b.asks);
    KnownNowhere(l, id, b.bids);
  }

  /** The ids an operation of one market may touch are not those of another market's orders. */
  lemma OthersUntouched(cfg: Config, e: Exchange, n: MarketName, m: MarketName, next: nat)
    requires ExchangeOk(cfg, e) && n in e.books && m in e.books && m != n && e.counters.orderId < next
    ensures BookIds(e.books[m]) !! BookIds(e.books[n]) + {next}
  {
    BookIdsUpTo(cfg.confs[m], e.books[m], e.counters.orderId);
  }

  lemma StillInABook(books: map<MarketName, Book>, n: MarketName, b: Book, id: nat)
    requires InABook(books, id) && n in books && id !in BookIds(books[n])
    ensures InABook(books[n := b], id)
  {
    var m :| m in books && id in BookIds(books[m]);
    assert id in BookIds(books[n := b][m]);
  }

  /** One market's operation that may have touched its own orders and, if it took one, the next id. */
  ghost predicate TouchesOwn(e: Exchange, n: MarketName, v: Venue, touched: set<nat>)
    requires n in e.books
  {
    && BookIds(v.book) <= touched
    && ((v.counters.orderId == e.counters.orderId && touched == BookIds(e.books[n]))
        || (v.counters.orderId == e.counters.orderId + 1 && touched == BookIds(e.books[n]) + {v.counters.orderId}))
  }

  lemma BooksStayKnown(cfg: Config, e: Exchange, n: MarketName, v: Venue, touched: set<nat>, l: Life, l': Life, id: nat)
    requires ExchangeOk(cfg, e) && n in e.books && TouchesOwn(e, n, v, touched)
    requires (forall m | m in e.books :: BookKnown(l, id, e.books[m])) && LifeGoesOn(l, l', id, touched, v.book)
    ensures forall m | m in e.books && m != n :: BookKnown(l', id, e.books[m])
  {
    forall m | m in e.books && m != n
      ensures BookKnown(l', id, e.books[m])
    {
      OthersUntouched(cfg, e, n, m, e.counters.orderId + 1);
      if id !in BookIds(e.books[m]) {
        UnknownIsAbsent(l', id, e.books[m]);
      }
    }
  }

  lemma InThisBook(books: map<MarketName, Book>, n: MarketName, b: Book, id: nat)
    requires n in books && id in BookIds(b)
    ensures InABook(books[n := b], id)
  {
    assert id in BookIds(books[n := b][n]);
  }

  /** An order that is in no book after the operation was touched by it, or was in no book before. */
  lemma NowInNoBook(e: Exchange, n: MarketName, v: Venue, touched: set<nat>, id: nat)
    requires n in e.books && TouchesOwn(e, n, v, touched) && !InABook(e.books[n := v.book], id)
    ensures id !in BookIds(v.book) && (id !in touched ==> !InABook(e.books, id))
  {
    if id in BookIds(v.book) {
      InThisBook(e.books, n, v.book, id);
    }
    if id !in touched && InABook(e.books, id) {
      StillInABook(e.books, n, v.book, id);
    }
  }

  /** One market's operation, seen by the whole exchange. */
  lemma VenueStory(cfg: Config, e: Exchange, n: MarketName, v: Venue, touched: set<nat>, l: Life, l': Life, id: nat)
    requires ExchangeOk(cfg, e) && n in e.books && TouchesOwn(e, n, v, touched)
    requires Story(l, id, e) && LifeGoesOn(l, l', id, touched, v.book)
    ensures Story(l', id, WithVenue(e, n, v))
  {
    BooksStayKnown(cfg, e, n, v, touched, l, l', id);
    if id in BookIds(e.books[n]) {
      KnownIfIn(l, id, e.books[n]);
    }
    if !InABook(WithVenue(e, n, v).books, id) {
      NowInNoBook(e, n, v, touched, id);
    }
  }

  // ---------------------------------------------------------------- placing

  lemma PutReads(c: MarketConf, v: Venue, input: OrderInput, user: Uuid, l: Life, id: nat)
    requires VenueOk(c, v) && Sensible(input) && PutOrder(c, v, input, user).Accepted?
    requires BookKnown(l, id, v.book) && (id == v.counters.orderId + 1 ==> l == Unborn)
    ensures var placed := PutOrder(c, v, input, user).placed;
            LifeGoesOn(l, Read(l, placed.events, id), id, BookIds(v.book) + {v.counters.orderId + 1}, placed.venue.book)
  {
    AdmittedIsReady(c, v, input, user);
    ExecuteReads(c, NextOrderId(v), NewOrder(c, v.counters.orderId + 1, input, user), QuoteLimit(c, v, input, user), l, id);
  }

  /** An accepted order: its story, and that it took the next id and put in no other order. */
  ghost predicate PlacedWell(v: Venue, placed: Placed, l: Life, id: nat)
  {
    var touched := BookIds(v.book) + {v.counters.orderId + 1};
    && BookIds(placed.venue.book) <= touched && placed.venue.counters.orderId == v.counters.orderId + 1
    && LifeGoesOn(l, Read(l, placed.events, id), id, touched, placed.venue.book)
  }

  lemma PutTakesNextId(c: MarketConf, v: Venue, input: OrderInput, user: Uuid)
    requires VenueOk(c, v) && Sensible(input) && PutOrder(c, v, input, user).Accepted?
    ensures var placed := PutOrder(c, v, input, user).placed;
            BookIds(placed.venue.book) <= BookIds(v.book) + {v.counters.orderId + 1} && placed.venue.counters.orderId == v.counters.orderId + 1
  {
    PutOrderIsSafe(c, v, input, user);
  }

  lemma PutsWell(c: MarketConf, v: Venue, input: OrderInput, user: Uuid, l: Life, id: nat)
    requires VenueOk(c, v) && Sensible(input) && BookKnown(l, id, v.book) && (id == v.counters.orderId + 1 ==> l == Unborn)
    ensures var r := PutOrder(c, v, input, user); !r.Crashed? && (r.Accepted? ==> PlacedWell(v, r.placed, l, id))
  {
    PutOrderIsSafe(c, v, input, user);
    if PutOrder(c, v, input, user).Accepted? {
      PutReads(c, v, input, user, l, id);
      PutTakesNextId(c, v, input, user);
    }
  }

  lemma PlacedTellsStory(cfg: Config, e: Exchange, n: MarketName, placed: Placed, l: Life, id: nat)
    requires ExchangeOk(cfg, e) && n in e.books && Story(l, id, e) && PlacedWell(VenueOf(e, n), placed, l, id)
    ensures Story(Read(l, placed.events, id), id, WithVenue(e, n, placed.venue))
  {
    VenueStory(cfg, e, n, placed.venue, BookIds(e.books[n]) + {e.counters.orderId + 1}, l, Read(l, placed.events, id), id);
  }

  lemma PutOneTellsStory(cfg: Config, e: Exchange, user: Uuid, put: PutRequest, l: Life, id: nat)
    requires ExchangeOk(cfg, e) && Sensible(put.input) && Story(l, id, e)
    ensures var r := PutOne(cfg, e, user, put); Story(Read(l, r.events, id), id, r.exchange)
  {
    var n := put.market;
    if Listed(cfg, e, n) {
      VenueOfIsOk(cfg, e, n);
      PutsWell(cfg.confs[n], VenueOf(e, n), put.input, user, l, id);
      if PutOrder(cfg.confs[n], VenueOf(e, n), put.input, user).Accepted? {
        PlacedTellsStory(cfg, e, n, PutOrder(cfg.confs[n], VenueOf(e, n), put.input, user).placed, l, id);
      }
    }
  }

  // ---------------------------------------------------------------- finishing

  lemma OneLessReads(b: Book, side: OrderSide, i: nat, l: Life, id: nat)
    requires i < |b.Side(side)| && BookKnown(l, id, b) && b.Side(side)[i].id !in Ids(b.Side(side)[..i] + b.Side(side)[i + 1..])
    requires b.Side(side)[i].id !in Ids(b.Side(Opposite(side)))
    ensures var o := b.Side(side)[i];
            var b' := b.WithSide(side, b.Side(side)[..i] + b.Side(side)[i + 1..]);
            BookIds(b') == BookIds(b) - {o.id} && LifeGoesOn(l, Read(l, [OrderEvent(o, FINISH)], id), id, BookIds(b), b')
  {
    var o := b.Side(side)[i];
    OneLess(b.Side(side), i, l, id);
    ReadOne(l, OrderEvent(o, FINISH), id);
    if id == o.id {
      UnknownIsAbsent(Closed, id, b.WithSide(side, b.Side(side)[..i] + b.Side(side)[i + 1..]));
    }
  }

  lemma FinishReadsAt(c: MarketConf, v: Venue, side: OrderSide, i: nat, l: Life, id: nat)
    requires VenueOk(c, v) && BookKnown(l, id, v.book) && i < |v.book.Side(side)|
    ensures var o := v.book.Side(side)[i];
            var b' := Finish(c, v.book, v.funds.balances, o).0;
            LifeGoesOn(l, Read(l, [OrderEvent(o, FINISH)], id), id, BookIds(v.book), b') && BookIds(b') == BookIds(v.book) - {o.id}
  {
    FinishIsSafe(c, v, side, i);
    FinishedIsGone(c, v, side, i);
    OneLessReads(v.book, side, i, l, id);
  }

  /** Taking one order out ends its trace and no other. */
  lemma FinishReads(c: MarketConf, v: Venue, o: Order, l: Life, id: nat)
    requires VenueOk(c, v) && BookKnown(l, id, v.book) && Find(v.book, o.id) == Some(o)
    ensures var b' := Finish(c, v.book, v.funds.balances, o).0;
            LifeGoesOn(l, Read(l, [OrderEvent(o, FINISH)], id), id, BookIds(v.book), b') && BookIds(b') == BookIds(v.book) - {o.id}
  {
    FindLocates(v.book, o.id);
    if i :| 0 <= i < |v.book.asks| && v.book.asks[i] == o {
      FinishReadsAt(c, v, ASK, i, l, id);
    } else {
      var i :| 0 <= i < |v.book.bids| && v.book.bids[i] == o;
      FinishReadsAt(c, v, BID, i, l, id);
    }
  }

  lemma OneLess(s: seq<Order>, i: nat, l: Life, id: nat)
    requires i < |s| && KnownIn(l, id, s)
    ensures var r := s[..i] + s[i + 1..]; KnownIn(l, id, r) && Ids(s) == Ids(r) + {s[i].id}
  {
    var r := s[..i] + s[i + 1..];
    IdsOfConcat(s[..i], s[i + 1..]);
    IdsOfParts(s[..i], s[i]);
    IdsOfConcat(s[..i] + [s[i]], s[i + 1..]);
    assert s == s[..i] + [s[i]] + s[i + 1..];
    KnownInConcat(l, id, s[..i], s[i + 1..]);
  }

  lemma LivesGoOn(l: Life, l1: Life, l2: Life, id: nat, b: Book, b1: Book, b2: Book)
    requires BookIds(b1) <= BookIds(b) && BookIds(b2) <= BookIds(b1)
    requires LifeGoesOn(l, l1, id, BookIds(b), b1) && LifeGoesOn(l1, l2, id, BookIds(b1), b2)
    ensures LifeGoesOn(l, l2, id, BookIds(b), b2)
  {
  }

  lemma {:induction false} FinishAllReads(c: MarketConf, v: Venue, ids: seq<nat>, l: Life, id: nat)
    requires VenueOk(c, v) && BookKnown(l, id, v.book)
    ensures var (b', _, events) := FinishAll(c, v.book, v.funds.balances, ids);
            LifeGoesOn(l, Read(l, events, id), id, BookIds(v.book), b') && BookIds(b') <= BookIds(v.book)
    decreases |ids|
  {
    if ids != [] {
      if Find(v.book, ids[0]).Some? {
        var o := Find(v.book, ids[0]).value;
        FinishFoundIsSafe(c, v, ids[0]);
        FindLocates(v.book, ids[0]);
        FinishReads(c, v, o, l, id);
        var (b1, balances1) := Finish(c, v.book, v.funds.balances, o);
        var v1 := Venue(b1, v.funds.(balances := balances1), v.counters);
        KeepsMeansOk(c, v, v1);
        var l1 := Read(l, [OrderEvent(o, FINISH)], id);
        FinishAllReads(c, v1, ids[1..], l1, id);
        var (b2, _, events) := FinishAll(c, b1, balances1, ids[1..]);
        ReadConcat(l, [OrderEvent(o, FINISH)], events, id);
        LivesGoOn(l, l1, Read(l1, events, id), id, v.book, b1, b2);
      } else {
        FinishAllReads(c, v, ids[1..], l, id);
      }
    } else {
      BookKnownStays(l, id, v.book);
    }
  }

  lemma BookKnownStays(l: Life, id: nat, b: Book)
    requires BookKnown(l, id, b)
    ensures LifeGoesOn(l, l, id, BookIds(b), b)
  {
  }

  lemma FinishInTellsStory(cfg: Config, e: Exchange, n: MarketName, ids: seq<nat>, l: Life, id: nat)
    requires ExchangeOk(cfg, e) && Listed(cfg, e, n) && Story(l, id, e)
    ensures var r := FinishIn(cfg, e, n, ids); Story(Read(l, r.events, id), id, r.exchange)
  {
    VenueOfIsOk(cfg, e, n);
    FinishAllReads(cfg.confs[n], VenueOf(e, n), ids, l, id);
    var (b, balances, events) := FinishAll(cfg.confs[n], e.books[n], e.funds.balances, ids);
    VenueStory(cfg, e, n, Venue(b, e.funds.(balances := balances), e.counters), BookIds(e.books[n]), l, Read(l, events, id), id);
  }

  // ---------------------------------------------------------------- requests and runs

  lemma CancelAllTellsStory(cfg: Config, e: Exchange, user: Uuid, n: MarketName, l: Life, id: nat)
    requires ExchangeOk(cfg, e) && Story(l, id, e)
    ensures var r := CancelAll(cfg, e, user, n); Story(Read(l, r.events, id), id, r.exchange)
  {
    if Listed(cfg, e, n) {
      FinishInTellsStory(cfg, e, n, IdsOfUser(e.books[n].asks + e.books[n].bids, user), l, id);
    }
  }

  lemma {:induction false} ResetAllTellsStory(cfg: Config, e: Exchange, user: Uuid, n: MarketName, orders: seq<PutRequest>, l: Life, id: nat)
    requires ExchangeOk(cfg, e) && Story(l, id, e)
    ensures var r := ResetAll(cfg, e, user, n, orders); Story(Read(l, r.events, id), id, r.exchange)
    decreases |orders|
  {
    if orders != [] && orders[0].market == n {
      var first := CancelAll(cfg, e, user, n);
      CancelAllTellsStory(cfg, e, user, n, l, id);
      CancelAllIsSound(cfg, e, user, n);
      ResetAllTellsStory(cfg, first.exchange, user, n, orders[1..], Read(l, first.events, id), id);
      ReadConcat(l, first.events, ResetAll(cfg, first.exchange, user, n, orders[1..]).events, id);
    }
  }

  lemma {:induction false} PutAllTellsStory(cfg: Config, e: Exchange, user: Uuid, n: MarketName, orders: seq<PutRequest>, l: Life, id: nat)
    requires ExchangeOk(cfg, e) && Story(l, id, e) && forall p | p in orders :: Sensible(p.input)
    ensures var r := PutAll(cfg, e, user, n, orders); Story(Read(l, r.events, id), id, r.exchange)
    decreases |orders|
  {
    if orders != [] && orders[0].market == n {
      var first := PutOne(cfg, e, user, orders[0]);
      PutOneTellsStory(cfg, e, user, orders[0], l, id);
      PutOneIsSound(cfg, e, user, orders[0]);
      if first.response == Accept {
        PutAllTellsStory(cfg, first.exchange, user, n, orders[1..], Read(l, first.events, id), id);
        ReadConcat(l, first.events, PutAll(cfg, first.exchange, user, n, orders[1..]).events, id);
      }
    }
  }

  lemma BatchTellsStory(cfg: Config, e: Exchange, user: Uuid, n: MarketName, reset: bool, orders: seq<PutRequest>, l: Life, id: nat)
    requires ExchangeOk(cfg, e) && Story(l, id, e) && forall p | p in orders :: Sensible(p.input)
    ensures var r := PutBatch(cfg, e, user, n, reset, orders); Story(Read(l, r.events, id), id, r.exchange)
  {
    if Listed(cfg, e, n) {
      if reset {
        var first := ResetAll(cfg, e, user, n, orders);
        ResetAllTellsStory(cfg, e, user, n, orders, l, id);
        ResetAllIsSound(cfg, e, user, n, orders);
        if first.response == Accept {
          PutAllTellsStory(cfg, first.exchange, user, n, orders, Read(l, first.events, id), id);
          ReadConcat(l, first.events, PutAll(cfg, first.exchange, user, n, orders).events, id);
        }
      } else {
        PutAllTellsStory(cfg, e, user, n, orders, l, id);
        assert [] + PutAll(cfg, e, user, n, orders).events == PutAll(cfg, e, user, n, orders).events;
      }
    }
  }

  lemma ChangeTellsStory(cfg: Config, e: Exchange, user: Uuid, asset: Asset, delta: Fixed, business: nat, key: nat, l: Life, id: nat)
    requires Story(l, id, e)
    ensures var f := UpdateBalance(cfg, e, user, asset, delta, business, key); Story(Read(l, f.events, id), id, f.exchange)
  {
    if asset in cfg.assets {
      ReadOne(l, FundsEvent(user, asset, RoundedChange(cfg.assets[asset], delta)), id);
    }
  }

  lemma CancelTellsStory(cfg: Config, e: Exchange, user: Uuid, n: MarketName, order: nat, l: Life, id: nat)
    requires ExchangeOk(cfg, e) && Story(l, id, e)
    ensures var f := CancelOne(cfg, e, user, n, order); Story(Read(l, f.events, id), id, f.exchange)
  {
    if Listed(cfg, e, n) {
      FinishInTellsStory(cfg, e, n, [order], l, id);
    }
  }

  lemma ExecTellsStory(cfg: Config, e: Exchange, user: Uuid, r: Request, l: Life, id: nat)
    requires ExchangeOk(cfg, e) && SensibleRequest(r) && Story(l, id, e)
    ensures var f := Exec(cfg, e, user, r); Story(Read(l, f.events, id), id, f.exchange)
  {
    match r
    case BalanceUpdate(asset, delta, business, key) => ChangeTellsStory(cfg, e, user, asset, delta, business, key, l, id);
    case OrderPut(put) => PutOneTellsStory(cfg, e, user, put, l, id);
    case BatchOrderPut(n, reset, orders) => BatchTellsStory(cfg, e, user, n, reset, orders, l, id);
    case OrderCancel(n, order) => CancelTellsStory(cfg, e, user, n, order, l, id);
    case OrderCancelAll(n) => CancelAllTellsStory(cfg, e, user, n, l, id);
  }

  lemma GenesisHasNoStory(cfg: Config, id: nat)
    ensures Story(Read(Unborn, Genesis(cfg).journal, id), id, Genesis(cfg).exchange)
  {
  }

  /** In every reachable state, for every order id, the journal's story fits the state. */
  lemma {:induction false} EveryRunTellsStory(cfg: Config, w: World, inputs: seq<Input>, id: nat)
    requires WorldOk(cfg, w) && Story(Read(Unborn, w.journal, id), id, w.exchange)
    requires forall i | i in inputs && i.Serve? :: SensibleRequest(i.request)
    ensures var w' := Run(cfg, w, inputs); Story(Read(Unborn, w'.journal, id), id, w'.exchange)
    decreases |inputs|
  {
    if inputs != [] {
      var i := inputs[0];
      NextIsOk(cfg, w, i);
      if i.Serve? && i.available {
        ExecTellsStory(cfg, w.exchange, i.user, i.request, Read(Unborn, w.journal, id), id);
        ReadConcat(Unborn, w.journal, Exec(cfg, w.exchange, i.user, i.request).events, id);
      }
      EveryRunTellsStory(cfg, Next(cfg, w, i), inputs[1..], id);
    }
  }
}
