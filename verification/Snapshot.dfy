/** Recovery, part two: a snapshot holds every balance and every open order once; loading it builds the
    same balances and the same books, and replaying the log from there leads to where the exchange was. */
module Snapshot {
  import opened Types
  import opened Orders
  import opened Ledger
  import opened Matching
  import opened MatchLoop
  import opened BookInvariant
  import opened VenueInvariant
  import opened Exchange
  import opened ExchangeInvariant
  import opened RefusedBatches
  import opened Replay
  import Precision
  import Sums

  type BalanceRow = (BalanceKey, int)

  /** The rows of one slice, as their queries return them, and its entry in the slice history. */
  datatype Slice = Slice(balances: seq<BalanceRow>, orders: seq<Order>, ends: Counters)

  // ---------------------------------------------------------------- what is dumped

  ghost predicate DistinctKeys(rows: seq<BalanceRow>)
  {
    forall i, j | 0 <= i < j < |rows| :: rows[i].0 != rows[j].0
  }

  ghost predicate HasRow(rows: seq<BalanceRow>, k: BalanceKey, v: int)
  {
    (k, v) in rows
  }

  ghost predicate Holds(b: Balances, k: BalanceKey, v: int)
  {
    k in b && b[k] == v
  }

  ghost predicate BalancesDumped(b: Balances, rows: seq<BalanceRow>)
  {
    DistinctKeys(rows) && forall k, v :: HasRow(rows, k, v) <==> Holds(b, k, v)
  }

  ghost predicate Resting(books: map<MarketName, Book>, n: MarketName, side: OrderSide, o: Order)
  {
    n in books && o in books[n].Side(side)
  }

  ghost predicate OrdersDumped(books: map<MarketName, Book>, rows: seq<Order>)
  {
    DistinctIds(rows) && forall o :: o in rows <==> Resting(books, o.market, o.side, o)
  }

  /** The slice is a dump of the exchange, in any order of rows. */
  ghost predicate SliceOf(e: Exchange, s: Slice)
  {
    BalancesDumped(e.funds.balances, s.balances) && OrdersDumped(e.books, s.orders) && s.ends == e.counters
  }

  // ---------------------------------------------------------------- what is loaded

  function LoadBalances(b: Balances, rows: seq<BalanceRow>): Balances
    decreases |rows|
  {
    if rows == [] then b else LoadBalances(b[rows[0].0 := rows[0].1], rows[1..])
  }

  /** `insert_order_into_orderbook`: the backing is computed anew, not taken from the row. */
  function LoadOrder(cfg: Config, books: map<MarketName, Book>, o: Order): map<MarketName, Book>
    requires o.market in books && o.market in cfg.confs
  {
    var b := books[o.market];
    books[o.market := b.WithSide(o.side, Insert(o.side, b.Side(o.side), WithBacking(cfg.confs[o.market], o)))]
  }

  /** A row of an unknown market would panic. */
  predicate KnownMarkets(cfg: Config, books: map<MarketName, Book>, rows: seq<Order>)
  {
    forall o | o in rows :: o.market in books && o.market in cfg.confs
  }

  function LoadOrders(cfg: Config, books: map<MarketName, Book>, rows: seq<Order>): map<MarketName, Book>
    requires KnownMarkets(cfg, books, rows)
    decreases |rows|
  {
    if rows == [] then books else LoadOrders(cfg, LoadOrder(cfg, books, rows[0]), rows[1..])
  }

  /** What loading a slice makes of an empty exchange; the log's counter is taken up only at the end. */
  function Loaded(cfg: Config, s: Slice): Exchange
    requires KnownMarkets(cfg, Genesis(cfg).exchange.books, s.orders)
  {
    Exchange(LoadOrders(cfg, Genesis(cfg).exchange.books, s.orders), Funds(LoadBalances(map[], s.balances), {}), Counters(s.ends.orderId, s.ends.tradeId, 0))
  }

  // ---------------------------------------------------------------- loading what was dumped

  lemma {:induction false} LoadedBalances(b: Balances, rows: seq<BalanceRow>, k: BalanceKey, v: int)
    requires DistinctKeys(rows)
    ensures Holds(LoadBalances(b, rows), k, v)
       <==> HasRow(rows, k, v) || (Holds(b, k, v) && forall i | 0 <= i < |rows| :: rows[i].0 != k)
    decreases |rows|
  {
    if rows != [] {
      LoadedBalances(b[rows[0].0 := rows[0].1], rows[1..], k, v);
      assert rows == [rows[0]] + rows[1..];
      KeyAbsent(rows, k);
    }
  }

  lemma KeyAbsent(rows: seq<BalanceRow>, k: BalanceKey)
    requires rows != [] && DistinctKeys(rows)
    ensures (forall i | 0 <= i < |rows| :: rows[i].0 != k) <==> rows[0].0 != k && forall i | 0 <= i < |rows| - 1 :: rows[1..][i].0 != k
    ensures forall i | 0 <= i < |rows| - 1 :: rows[1..][i].0 != rows[0].0
  {
    assert forall i | 0 <= i < |rows| - 1 :: rows[1..][i] == rows[i + 1];
    assert forall i | 0 < i < |rows| :: rows[i] == rows[1..][i - 1];
  }

  lemma BalancesRoundTrip(b: Balances, rows: seq<BalanceRow>)
    requires BalancesDumped(b, rows)
    ensures LoadBalances(map[], rows) == b
  {
    var empty: Balances := map[];
    var l := LoadBalances(empty, rows);
    forall k, v
      ensures Holds(l, k, v) <==> Holds(b, k, v)
    {
      LoadedBalances(empty, rows, k, v);
      assert HasRow(rows, k, v) <==> Holds(b, k, v);
    }
    assert forall k | k in l :: Holds(l, k, l[k]);
    assert forall k | k in b :: Holds(b, k, b[k]);
  }

  lemma InsertHolds(side: OrderSide, s: seq<Order>, o: Order, x: Order)
    ensures x in Insert(side, s, o) <==> x == o || x in s
  {
    InsertAddsOrder(side, s, o);
    assert x in Insert(side, s, o) <==> x in multiset(Insert(side, s, o));
    assert x in s <==> x in multiset(s);
  }

  /** A side being loaded: sorted, and none of its orders is still to come. */
  ghost predicate SideLoading(side: OrderSide, s: seq<Order>, rows: seq<Order>)
  {
    Sorted(side, s) && forall i, j | 0 <= i < |s| && 0 <= j < |rows| :: s[i].id != rows[j].id
  }

  ghost predicate Loading(books: map<MarketName, Book>, rows: seq<Order>)
  {
    forall n | n in books :: SideLoading(ASK, books[n].asks, rows) && SideLoading(BID, books[n].bids, rows)
  }

  lemma SideKeepsLoading(side: OrderSide, s: seq<Order>, rows: seq<Order>)
    requires rows != [] && SideLoading(side, s, rows)
    ensures SideLoading(side, s, rows[1..])
  {
  }

  lemma SideLoadsOne(side: OrderSide, s: seq<Order>, rows: seq<Order>, o: Order)
    requires rows != [] && DistinctIds(rows) && SideLoading(side, s, rows) && o.id == rows[0].id
    ensures SideLoading(side, Insert(side, s, o), rows[1..])
  {
    InsertKeepsSorted(side, s, o);
    InsertedElements(side, s, o);
  }

  lemma LoadOrderKeepsLoading(cfg: Config, books: map<MarketName, Book>, rows: seq<Order>)
    requires rows != [] && DistinctIds(rows) && KnownMarkets(cfg, books, rows) && Loading(books, rows)
    ensures Loading(LoadOrder(cfg, books, rows[0]), rows[1..])
  {
    var o := rows[0];
    var b := books[o.market];
    SideLoadsOne(o.side, b.Side(o.side), rows, WithBacking(cfg.confs[o.market], o));
    forall n | n in books
      ensures SideLoading(ASK, books[n].asks, rows[1..]) && SideLoading(BID, books[n].bids, rows[1..])
    {
      SideKeepsLoading(ASK, books[n].asks, rows);
      SideKeepsLoading(BID, books[n].bids, rows);
    }
  }

  /** Rows as they were dumped: each order's stored backing is what loading computes. */
  ghost predicate BackedRows(cfg: Config, rows: seq<Order>)
  {
    forall o | o in rows :: o.market in cfg.confs && WithBacking(cfg.confs[o.market], o) == o
  }

  lemma LoadOrderHolds(cfg: Config, books: map<MarketName, Book>, o: Order, n: MarketName, side: OrderSide, x: Order)
    requires o.market in books && o.market in cfg.confs && WithBacking(cfg.confs[o.market], o) == o && n in books
    ensures var books' := LoadOrder(cfg, books, o);
            && books'.Keys == books.Keys
            && (Resting(books', n, side, x) <==> Resting(books, n, side, x) || (x == o && x.market == n && x.side == side))
  {
    InsertHolds(o.side, books[o.market].Side(o.side), o, x);
  }

  /** After loading, the books are sorted and hold what they held before and the rows, each where it belongs. */
  lemma {:induction false} LoadedOrders(cfg: Config, books: map<MarketName, Book>, rows: seq<Order>, n: MarketName, side: OrderSide, x: Order)
    requires DistinctIds(rows) && KnownMarkets(cfg, books, rows) && Loading(books, rows) && BackedRows(cfg, rows) && n in books
    ensures var books' := LoadOrders(cfg, books, rows);
            && books'.Keys == books.Keys && Loading(books', [])
            && (Resting(books', n, side, x) <==> Resting(books, n, side, x) || (x in rows && x.market == n && x.side == side))
    decreases |rows|
  {
    if rows != [] {
      var o := rows[0];
      LoadOrderKeepsLoading(cfg, books, rows);
      assert rows == [o] + rows[1..];
      LoadOrderHolds(cfg, books, o, n, side, x);
      LoadedOrders(cfg, LoadOrder(cfg, books, o), rows[1..], n, side, x);
    }
  }

  lemma SidesAreSame(e: Exchange, books: map<MarketName, Book>, n: MarketName, side: OrderSide)
    requires n in e.books && n in books && Sorted(side, e.books[n].Side(side)) && Sorted(side, books[n].Side(side))
    requires forall x :: Resting(books, n, side, x) <==> Resting(e.books, n, side, x)
    ensures books[n].Side(side) == e.books[n].Side(side)
  {
    forall x
      ensures x in books[n].Side(side) <==> x in e.books[n].Side(side)
    {
      assert Resting(books, n, side, x) <==> Resting(e.books, n, side, x);
    }
    SortedIsUnique(side, books[n].Side(side), e.books[n].Side(side));
  }

  lemma DumpedIsBacked(cfg: Config, e: Exchange, rows: seq<Order>)
    requires ExchangeOk(cfg, e) && OrdersDumped(e.books, rows)
    ensures KnownMarkets(cfg, Genesis(cfg).exchange.books, rows) && BackedRows(cfg, rows)
  {
    forall o | o in rows
      ensures o.market in cfg.confs && WithBacking(cfg.confs[o.market], o) == o
    {
      assert Resting(e.books, o.market, o.side, o);
      RestingIsWorking(cfg, e, o.market, o.side, o);
    }
  }

  lemma RestingIsWorking(cfg: Config, e: Exchange, n: MarketName, side: OrderSide, o: Order)
    requires ExchangeOk(cfg, e) && Resting(e.books, n, side, o)
    ensures Working(cfg.confs[n], side, o, e.counters.orderId) && o.market == n && o.side == side
  {
    var s := e.books[n].Side(side);
    var i :| 0 <= i < |s| && s[i] == o;
    assert BookOk(cfg.confs[n], e.books[n], e.counters.orderId);
  }

  lemma BookRoundTrip(cfg: Config, e: Exchange, rows: seq<Order>, n: MarketName, side: OrderSide)
    requires ExchangeOk(cfg, e) && OrdersDumped(e.books, rows) && n in e.books
    ensures KnownMarkets(cfg, Genesis(cfg).exchange.books, rows)
    ensures var books := LoadOrders(cfg, Genesis(cfg).exchange.books, rows);
            books.Keys == e.books.Keys && books[n].Side(side) == e.books[n].Side(side)
  {
    DumpedIsBacked(cfg, e, rows);
    var empty := Genesis(cfg).exchange.books;
    var books := LoadOrders(cfg, empty, rows);
    forall x
      ensures books.Keys == e.books.Keys && Loading(books, [])
      ensures Resting(books, n, side, x) <==> Resting(e.books, n, side, x)
    {
      LoadedOrders(cfg, empty, rows, n, side, x);
      if Resting(e.books, n, side, x) {
        RestingIsWorking(cfg, e, n, side, x);
      }
    }
    var x: Order :| true;
    LoadedOrders(cfg, empty, rows, n, side, x);
    assert BookOk(cfg.confs[n], e.books[n], e.counters.orderId);
    SidesAreSame(e, books, n, side);
  }

  /** Loading a dump builds an exchange that agrees with the dumped one on everything a snapshot keeps. */
  lemma SliceRoundTrip(cfg: Config, e: Exchange, s: Slice)
    requires ExchangeOk(cfg, e) && SliceOf(e, s)
    ensures KnownMarkets(cfg, Genesis(cfg).exchange.books, s.orders)
    ensures SameExchange(e, Loaded(cfg, s))
  {
    DumpedIsBacked(cfg, e, s.orders);
    BalancesRoundTrip(e.funds.balances, s.balances);
    var books := LoadOrders(cfg, Genesis(cfg).exchange.books, s.orders);
    forall n | n in e.books
      ensures books.Keys == e.books.Keys && SameBook(e.books[n], books[n])
    {
      BookRoundTrip(cfg, e, s.orders, n, ASK);
      BookRoundTrip(cfg, e, s.orders, n, BID);
    }
  }

  lemma FrozenTotalAlike(cfg: Config, e: Exchange, e': Exchange, user: Uuid, a: Asset)
    requires SameExchange(e, e')
    ensures FrozenTotal(cfg, e.books, user, a) == FrozenTotal(cfg, e'.books, user, a)
  {
    Sums.SumSame(e.books, e'.books, FrozenWeight(cfg, user, a), FrozenWeight(cfg, user, a));
  }

  /** What a snapshot keeps is enough for the whole invariant; the duplicate cache may be empty. */
  lemma SameIsOk(cfg: Config, e: Exchange, e': Exchange)
    requires ExchangeOk(cfg, e) && SameExchange(e, e') && TradeIdsUpTo(e'.funds.cache, e'.counters.tradeId)
    ensures ExchangeOk(cfg, e')
  {
    forall user, a
      ensures Get(e'.funds.balances, BalanceKey(user, FREEZE, a)) == FrozenTotal(cfg, e'.books, user, a)
    {
      FrozenTotalAlike(cfg, e, e', user, a);
    }
    forall user
      ensures OpenOrders(e'.books, user) <= cfg.userOrderLimit
    {
      OpenOrdersAlike(e, e', user);
    }
    forall n | n in e'.books
      ensures BookOk(cfg.confs[n], e'.books[n], e'.counters.orderId) && BookIds(e'.books[n]) == BookIds(e.books[n])
    {
      assert SameBook(e.books[n], e'.books[n]);
    }
  }

  // ---------------------------------------------------------------- the log

  /** Entries with consecutive ids, the first of them `first`. */
  ghost predicate NumberedFrom(log: seq<LogEntry>, first: nat)
  {
    forall i | 0 <= i < |log| :: log[i].id == first + i
  }

  /** Entries are numbered from one, without gaps, up to the log counter. */
  ghost predicate Numbered(w: World)
  {
    && w.exchange.counters.operationLogId == |w.log|
    && NumberedFrom(w.log, 1)
  }

  lemma {:induction false} RunIsNumbered(cfg: Config, w: World, inputs: seq<Input>)
    requires WorldOk(cfg, w) && Numbered(w) && SensibleInputs(inputs)
    ensures Numbered(Run(cfg, w, inputs))
    decreases |inputs|
  {
    if inputs != [] {
      var i := inputs[0];
      NextIsOk(cfg, w, i);
      if i.Serve? && i.available {
        ExecIsSound(cfg, w.exchange, i.user, i.request);
      }
      RunIsNumbered(cfg, Next(cfg, w, i), inputs[1..]);
    }
  }

  /** The rows the replay queries select: the entries after the one the snapshot ends with. */
  function EntriesAfter(log: seq<LogEntry>, id: nat): seq<LogEntry>
  {
    if log == [] then []
    else if log[0].id > id then [log[0]] + EntriesAfter(log[1..], id)
    else EntriesAfter(log[1..], id)
  }

  lemma NumberedTail(log: seq<LogEntry>, first: nat)
    requires log != [] && NumberedFrom(log, first)
    ensures NumberedFrom(log[1..], first + 1) && log[0].id == first
  {
  }

  lemma {:induction false} EntriesAfterNumbered(log: seq<LogEntry>, first: nat, id: nat)
    requires NumberedFrom(log, first) && first <= id + 1 <= first + |log|
    ensures EntriesAfter(log, id) == log[id + 1 - first..]
    decreases |log|
  {
    if log != [] {
      NumberedTail(log, first);
      if log[0].id > id {
        AllAfter(log, id);
      } else {
        EntriesAfterNumbered(log[1..], first + 1, id);
      }
    }
  }

  lemma {:induction false} AllAfter(log: seq<LogEntry>, id: nat)
    requires forall i | 0 <= i < |log| :: log[i].id > id
    ensures EntriesAfter(log, id) == log
  {
    if log != [] {
      AllAfter(log[1..], id);
    }
  }

  /** Crash recovery: load the slice, replay the entries after it, take up the log's counter. */
  ghost function Recovered(cfg: Config, s: Slice, log: seq<LogEntry>): Option<Exchange>
    requires KnownMarkets(cfg, Genesis(cfg).exchange.books, s.orders)
  {
    var entries := EntriesAfter(log, s.ends.operationLogId);
    match Replayed(cfg, Loaded(cfg, s), entries)
    case None => None
    case Some(e) =>
      var id := if entries == [] then s.ends.operationLogId else entries[|entries| - 1].id;
      Some(e.(counters := e.counters.(operationLogId := id)))
  }

  lemma LoadedIsTwin(cfg: Config, e: Exchange, s: Slice)
    requires ExchangeOk(cfg, e) && SliceOf(e, s)
    ensures KnownMarkets(cfg, Genesis(cfg).exchange.books, s.orders)
    ensures Twins(cfg, e, Loaded(cfg, s)) && Unspent(Loaded(cfg, s).funds.cache) == {}
  {
    SliceRoundTrip(cfg, e, s);
    SameIsOk(cfg, e, Loaded(cfg, s));
  }

  /** The entries recovery replays are those logged since the slice. */
  lemma EntriesSince(cfg: Config, w: World, inputs: seq<Input>)
    requires WorldOk(cfg, w) && Numbered(w) && SensibleInputs(inputs)
    ensures Numbered(Run(cfg, w, inputs))
    ensures EntriesAfter(Run(cfg, w, inputs).log, |w.log|) == LoggedBy(cfg, w, inputs)
  {
    RunIsNumbered(cfg, w, inputs);
    LogGrows(cfg, w, inputs);
    EntriesAfterNumbered(Run(cfg, w, inputs).log, 1, |w.log|);
  }

  lemma CounterIsNoMatter(cfg: Config, e: Exchange, e': Exchange, id: nat)
    requires Twins(cfg, e, e')
    ensures Twins(cfg, e, e'.(counters := e'.counters.(operationLogId := id)))
  {
    SameIsOk(cfg, e, e'.(counters := e'.counters.(operationLogId := id)));
  }

  lemma LastLogged(w: World, w': World)
    requires Numbered(w) && Numbered(w') && w.log <= w'.log
    ensures var entries := w'.log[|w.log|..];
            w'.exchange.counters.operationLogId == if entries == [] then |w.log| else entries[|entries| - 1].id
  {
  }

  /** A slice taken at any moment of a run, loaded after the run and followed by a replay of the whole
      log kept since, gives the same balances, open orders and counters as the run itself; it can
      only fail by meeting, twice, one deposit or withdrawal key.  RecoversIffNoTrace below shows that
      the condition on refusals is the exact one. */
  lemma RecoveryIsExact(cfg: Config, w: World, s: Slice, inputs: seq<Input>)
    requires WorldOk(cfg, w) && Numbered(w) && SliceOf(w.exchange, s)
    requires SensibleInputs(inputs) && RefusalsLeaveNoTrace(cfg, w, inputs)
    ensures KnownMarkets(cfg, Genesis(cfg).exchange.books, s.orders)
    ensures var end := Run(cfg, w, inputs);
            var r := Recovered(cfg, s, end.log);
            && (r.Some? <==> FreshKeys(cfg, {}, LoggedBy(cfg, w, inputs)))
            && (r.Some? ==> Twins(cfg, end.exchange, r.value) && r.value.counters == end.exchange.counters)
  {
    LoadedIsTwin(cfg, w.exchange, s);
    ReplayIsExact(cfg, w, Loaded(cfg, s), inputs);
    EntriesSince(cfg, w, inputs);
    var end, log := Run(cfg, w, inputs), LoggedBy(cfg, w, inputs);
    if Replayed(cfg, Loaded(cfg, s), log).Some? {
      LogGrows(cfg, w, inputs);
      LastLogged(w, end);
      CounterIsNoMatter(cfg, end.exchange, Replayed(cfg, Loaded(cfg, s), log).value, end.exchange.counters.operationLogId);
    }
  }

  // ---------------------------------------------------------------- when recovery fails

  /** Recovering what was dumped at `w` and logged since leads to where the run of these inputs led. */
  ghost predicate Recovers(cfg: Config, w: World, s: Slice, inputs: seq<Input>)
    requires KnownMarkets(cfg, Genesis(cfg).exchange.books, s.orders)
  {
    var end := Run(cfg, w, inputs);
    var r := Recovered(cfg, s, end.log);
    r.Some? && SameExchange(end.exchange, r.value)
  }

  lemma {:induction false} RunStep(cfg: Config, w: World, inputs: seq<Input>, k: nat)
    requires k < |inputs|
    ensures Run(cfg, w, inputs[..k + 1]) == Next(cfg, Run(cfg, w, inputs[..k]), inputs[k])
    decreases k
  {
    var all := inputs[..k + 1];
    if k == 0 {
      assert all[1..] == [];
    } else {
      RunStep(cfg, Next(cfg, w, inputs[0]), inputs[1..], k - 1);
      assert all[1..] == inputs[1..][..k] && inputs[..k][1..] == inputs[1..][..k - 1];
    }
  }

  lemma {:induction false} PrefixLeavesNoTrace(cfg: Config, w: World, inputs: seq<Input>, k: nat)
    requires k <= |inputs| && RefusalsLeaveNoTrace(cfg, w, inputs)
    ensures RefusalsLeaveNoTrace(cfg, w, inputs[..k])
    decreases k
  {
    if k > 0 {
      PrefixLeavesNoTrace(cfg, Next(cfg, w, inputs[0]), inputs[1..], k - 1);
      assert inputs[..k][1..] == inputs[1..][..k - 1];
    }
  }

  /** The first refusal that leaves a trace. */
  lemma {:induction false} FirstTrace(cfg: Config, w: World, inputs: seq<Input>) returns (k: nat)
    requires !RefusalsLeaveNoTrace(cfg, w, inputs)
    ensures k < |inputs| && RefusalsLeaveNoTrace(cfg, w, inputs[..k])
    ensures !StepLeavesNoTrace(cfg, Run(cfg, w, inputs[..k]), inputs[k])
    decreases |inputs|
  {
    if StepLeavesNoTrace(cfg, w, inputs[0]) {
      var j := FirstTrace(cfg, Next(cfg, w, inputs[0]), inputs[1..]);
      k := j + 1;
      assert inputs[..k][1..] == inputs[1..][..j];
    } else {
      k := 0;
    }
  }

  lemma TraceShows(cfg: Config, w: World, i: Input)
    requires WorldOk(cfg, w) && (i.Serve? ==> SensibleRequest(i.request)) && !StepLeavesNoTrace(cfg, w, i)
    ensures Next(cfg, w, i).log == w.log && !SameOrderIds(w.exchange, Next(cfg, w, i).exchange)
  {
    RefusedChangesNothingIff(cfg, w.exchange, i.user, i.request);
  }

  /** A trace is not in the log: what recovers the exchange before it does not recover it after. */
  lemma TraceIsLost(cfg: Config, w: World, s: Slice, inputs: seq<Input>, i: Input)
    requires KnownMarkets(cfg, Genesis(cfg).exchange.books, s.orders)
    requires WorldOk(cfg, Run(cfg, w, inputs)) && (i.Serve? ==> SensibleRequest(i.request))
    requires !StepLeavesNoTrace(cfg, Run(cfg, w, inputs), i) && Recovers(cfg, w, s, inputs)
    ensures var w' := Next(cfg, Run(cfg, w, inputs), i);
            Recovered(cfg, s, w'.log).Some? && !SameExchange(w'.exchange, Recovered(cfg, s, w'.log).value)
  {
    var before := Run(cfg, w, inputs);
    var after := Next(cfg, before, i);
    TraceShows(cfg, before, i);
    if SameExchange(after.exchange, Recovered(cfg, s, after.log).value) {
      SameHasSameIds(before.exchange, Recovered(cfg, s, before.log).value, after.exchange);
    }
  }

  lemma SameHasSameIds(e: Exchange, r: Exchange, e': Exchange)
    requires SameExchange(e, r) && SameExchange(e', r)
    ensures SameOrderIds(e, e')
  {
    forall n | n in e.books
      ensures BookIds(e'.books[n]) == BookIds(e.books[n])
    {
      assert SameBook(e.books[n], r.books[n]) && SameBook(e'.books[n], r.books[n]);
    }
  }

  /** Where no key is reused, recovery is exact at every moment of a run exactly when no refusal of the
      run leaves a trace. */
  lemma RecoversIffNoTrace(cfg: Config, w: World, s: Slice, inputs: seq<Input>)
    requires WorldOk(cfg, w) && Numbered(w) && SliceOf(w.exchange, s) && SensibleInputs(inputs)
    requires FreshKeys(cfg, {}, LoggedBy(cfg, w, inputs))
    ensures KnownMarkets(cfg, Genesis(cfg).exchange.books, s.orders)
    ensures (forall k | 0 <= k <= |inputs| :: Recovers(cfg, w, s, inputs[..k])) <==> RefusalsLeaveNoTrace(cfg, w, inputs)
  {
    LoadedIsTwin(cfg, w.exchange, s);
    if RefusalsLeaveNoTrace(cfg, w, inputs) {
      forall k | 0 <= k <= |inputs|
        ensures Recovers(cfg, w, s, inputs[..k])
      {
        PrefixLeavesNoTrace(cfg, w, inputs, k);
        PrefixRecovers(cfg, w, s, inputs, k);
      }
    } else {
      var k := FirstTrace(cfg, w, inputs);
      PrefixRecovers(cfg, w, s, inputs, k);
      RunStep(cfg, w, inputs, k);
      EveryRunIsOk(cfg, w, inputs[..k]);
      TraceIsLost(cfg, w, s, inputs[..k], inputs[k]);
      assert !Recovers(cfg, w, s, inputs[..k + 1]);
    }
  }

  lemma PrefixRecovers(cfg: Config, w: World, s: Slice, inputs: seq<Input>, k: nat)
    requires WorldOk(cfg, w) && Numbered(w) && SliceOf(w.exchange, s) && SensibleInputs(inputs) && k <= |inputs|
    requires FreshKeys(cfg, {}, LoggedBy(cfg, w, inputs)) && RefusalsLeaveNoTrace(cfg, w, inputs[..k])
    ensures KnownMarkets(cfg, Genesis(cfg).exchange.books, s.orders)
    ensures Recovers(cfg, w, s, inputs[..k])
  {
    RecoveryIsExact(cfg, w, s, inputs[..k]);
    PrefixLogs(cfg, w, inputs, k);
    assert forall i | 0 <= i < |LoggedBy(cfg, w, inputs[..k])| :: LoggedBy(cfg, w, inputs[..k])[i] == LoggedBy(cfg, w, inputs)[i];
  }

  lemma {:induction false} PrefixLogs(cfg: Config, w: World, inputs: seq<Input>, k: nat)
    requires k <= |inputs|
    ensures LoggedBy(cfg, w, inputs[..k]) <= LoggedBy(cfg, w, inputs)
    decreases k
  {
    if k > 0 {
      LoggedByStep(cfg, w, inputs);
      LoggedByStep(cfg, w, inputs[..k]);
      assert inputs[..k][1..] == inputs[1..][..k - 1];
      PrefixLogs(cfg, Next(cfg, w, inputs[0]), inputs[1..], k - 1);
    } else {
      LogGrows(cfg, w, inputs);
    }
  }

  /** A deposit repeated after its key has expired from the cache is applied again, and logged again;
      a restart replays both against one cache and panics at the second. */
  lemma ReusedKeyPanics(cfg: Config, user: Uuid, asset: Asset, delta: Fixed, business: nat, id: nat)
    requires asset in cfg.assets && 0 <= delta
    ensures var again := Serve(user, BalanceUpdate(asset, delta, business, id), true);
            var w := Run(cfg, Genesis(cfg), [again, Expire({}), again]);
            && !w.crashed && |w.log| == 2
            && Replayed(cfg, Genesis(cfg).exchange, w.log) == None
            && Recovered(cfg, Slice([], [], Genesis(cfg).exchange.counters), w.log) == None
  {
    var again := Serve(user, BalanceUpdate(asset, delta, business, id), true);
    var w0 := Genesis(cfg);
    DepositsAreCredits(cfg.assets[asset], delta);
    DepositIsLogged(cfg, w0, again);
    var w1 := Next(cfg, w0, again);
    var w2 := Next(cfg, w1, Expire({}));
    DepositIsLogged(cfg, w2, again);
    var w3 := Next(cfg, w2, again);
    RunOfThree(cfg, w0, again, Expire({}), again);
    SecondIsRefused(cfg, w0.exchange, w3.log);
    AllAfter(w3.log, 0);
    assert LoadOrders(cfg, w0.exchange.books, []) == w0.exchange.books;
  }

  lemma DepositsAreCredits(info: AssetInfo, delta: Fixed)
    requires 0 <= delta
    ensures 0 <= RoundedChange(info, delta)
  {
    Precision.MultipleAtLeast(Precision.RoundHalfEven(delta, info.showStep), info.showUnit);
  }

  lemma RunOfThree(cfg: Config, w: World, i: Input, j: Input, k: Input)
    ensures Run(cfg, w, [i, j, k]) == Next(cfg, Next(cfg, Next(cfg, w, i), j), k)
  {
    var w2 := Next(cfg, Next(cfg, w, i), j);
    assert Run(cfg, w2, [k]) == Next(cfg, w2, k);
    assert [i, j, k][1..] == [j, k] && [j, k][1..] == [k];
  }

  lemma DepositIsLogged(cfg: Config, w: World, i: Input)
    requires i.Serve? && i.available && i.request.BalanceUpdate? && i.request.asset in cfg.assets && !w.crashed
    requires 0 <= RoundedChange(cfg.assets[i.request.asset], i.request.delta) && w.exchange.funds.cache == {}
    ensures var w' := Next(cfg, w, i);
            && !w'.crashed && w'.log == w.log + [LogEntry(w.exchange.counters.operationLogId + 1, i.user, i.request)]
            && w'.exchange.counters.operationLogId == w.exchange.counters.operationLogId + 1
  {
  }

  /** Two entries with one deposit: the second finds its key used. */
  lemma SecondIsRefused(cfg: Config, e: Exchange, log: seq<LogEntry>)
    requires |log| == 2 && log[0].user == log[1].user && log[0].request == log[1].request && log[0].request.BalanceUpdate?
    ensures Replayed(cfg, e, log) == None
  {
    var r := Exec(cfg, e, log[0].user, log[0].request);
    if r.response == Accept {
      assert log[1..][0] == log[1];
      assert Exec(cfg, r.exchange, log[1].user, log[1].request).response == Reject;
    }
  }

  // ---------------------------------------------------------------- one lost order

  const ONE_MARKET: Config :=
    Config(map[0 := MarketConf(0, 1, 2, 0, 0, 1, 1, 1, 1, 1, true, false)], map[1 := AssetInfo(1, 1)], 1)

  const ASK_ONE: OrderInput := OrderInput(ASK, LIMIT, 1, 5, 0, 0, 0, false)

  lemma OneMarketStarts()
    ensures WorldOk(ONE_MARKET, Genesis(ONE_MARKET))
    ensures forall user :: OpenOrders(Genesis(ONE_MARKET).exchange.books, user) == 0
  {
    GenesisIsOk(ONE_MARKET);
    forall user
      ensures OpenOrders(Genesis(ONE_MARKET).exchange.books, user) == 0
    {
      SumOfZeros(Genesis(ONE_MARKET).exchange.books, CountWeight(user));
    }
  }

  /** After a deposit of one, an ask for one is accepted. */
  lemma AskIsAccepted(e: Exchange, user: Uuid)
    requires ExchangeOk(ONE_MARKET, e) && OpenOrders(e.books, user) == 0
    requires Get(e.funds.balances, BalanceKey(user, AVAILABLE, 1)) == 1
    ensures PutOne(ONE_MARKET, e, user, PutRequest(0, ASK_ONE)).response == Accept
  {
    var c := ONE_MARKET.confs[0];
    VenueOfIsOk(ONE_MARKET, e, 0);
    assert Refusal(c, VenueOf(e, 0), ASK_ONE, user) == None;
    PutOrderIsSafe(c, VenueOf(e, 0), ASK_ONE, user);
  }

  lemma OneDeposit(user: Uuid)
    ensures var w := Next(ONE_MARKET, Genesis(ONE_MARKET), Serve(user, BalanceUpdate(1, 1, 0, 1), true));
            && Get(w.exchange.funds.balances, BalanceKey(user, AVAILABLE, 1)) == 1
            && w.exchange.books == Genesis(ONE_MARKET).exchange.books && w.exchange.counters.orderId == 0
            && w.log == [LogEntry(1, user, BalanceUpdate(1, 1, 0, 1))]
  {
    assert RoundedChange(ONE_MARKET.assets[1], 1) == 1;
  }

  /** A run that loses an order: a deposit, and a batch of two asks of which the second is for another
      market.  The first ask is in the book; what recovery makes of the log has never seen it. */
  lemma MixedBatchRun(user: Uuid)
    ensures var stray := PutRequest(7, ASK_ONE);
            var batch := BatchOrderPut(0, false, [PutRequest(0, ASK_ONE), stray]);
            var inputs := [Serve(user, BalanceUpdate(1, 1, 0, 1), true), Serve(user, batch, true)];
            var w := Run(ONE_MARKET, Genesis(ONE_MARKET), inputs);
            var r := Recovered(ONE_MARKET, Slice([], [], Counters(0, 0, 0)), w.log);
            && !w.crashed && w.exchange.counters.orderId == 1
            && r.Some? && r.value.counters.orderId == 0 && !SameExchange(w.exchange, r.value)
  {
    var put, stray := PutRequest(0, ASK_ONE), PutRequest(7, ASK_ONE);
    var deposit, batch := Serve(user, BalanceUpdate(1, 1, 0, 1), true), Serve(user, BatchOrderPut(0, false, [put, stray]), true);
    OneMarketStarts();
    OneDeposit(user);
    var w0 := Genesis(ONE_MARKET);
    var w1 := Next(ONE_MARKET, w0, deposit);
    NextIsOk(ONE_MARKET, w0, deposit);
    AskIsAccepted(w1.exchange, user);
    MixedBatchIsLost(ONE_MARKET, w1.exchange, user, 0, put, stray);
    RunOfTwo(ONE_MARKET, w0, deposit, batch);
    DepositIsRecovered(user, w1.log);
  }

  lemma RunOfTwo(cfg: Config, w: World, i: Input, j: Input)
    ensures Run(cfg, w, [i, j]) == Next(cfg, Next(cfg, w, i), j)
  {
    var w1 := Next(cfg, w, i);
    assert Run(cfg, w1, [j]) == Next(cfg, w1, j);
    assert [i, j][1..] == [j];
  }

  lemma DepositIsRecovered(user: Uuid, log: seq<LogEntry>)
    requires log == [LogEntry(1, user, BalanceUpdate(1, 1, 0, 1))]
    ensures var r := Recovered(ONE_MARKET, Slice([], [], Counters(0, 0, 0)), log); r.Some? && r.value.counters.orderId == 0
  {
    AllAfter(log, 0);
    var e := Loaded(ONE_MARKET, Slice([], [], Counters(0, 0, 0)));
    assert RoundedChange(ONE_MARKET.assets[1], 1) == 1;
    var r := Exec(ONE_MARKET, e, user, log[0].request);
    assert r.response == Accept && r.exchange.counters.orderId == 0;
    assert Replayed(ONE_MARKET, r.exchange, log[1..]) == Some(r.exchange);
  }
}
