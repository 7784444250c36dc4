/** Starting up from the database: the slice is loaded into the objects page by page, and the log kept
    since is replayed on them. */
module Recovery {
  import opened Types
  import opened Orders
  import opened Ledger
  import opened Balances
  import opened Matching
  import opened BookInvariant
  import opened Exchange
  import opened ExchangeInvariant
  import M = Markets
  import opened Controllers
  import opened RefusedBatches
  import R = Replay
  import opened Snapshot
  import opened SliceLoading

  // ---------------------------------------------------------------- balances

  method SetBalance(c: Controller, key: BalanceKey, amount: int)
    requires c.Valid()
    modifies c`model, c.balanceManager
    ensures c.Valid()
    ensures c.model == old(c.model).(funds := old(c.model).funds.(balances := old(c.model).funds.balances[key := amount]))
  {
    c.balanceManager.SetByKey(key, amount);
    c.SetModel(c.model.(funds := c.model.funds.(balances := c.balanceManager.balances)));
    c.LedgerChanged();
  }

  /** An exchange that differs from `e` in its balances alone. */
  ghost predicate OnlyBalances(e: Exchange, e': Exchange)
  {
    e' == e.(funds := e.funds.(balances := e'.funds.balances))
  }

  /** Sets the balances of one page; `todo` are the rows still to be loaded, this page first. */
  method SetBalances(c: Controller, rows: seq<Row<BalanceRow>>, ghost todo: seq<BalanceRow>, ghost e: Exchange)
    requires c.Valid() && Values(rows) <= todo && OnlyBalances(e, c.model)
    modifies c`model, c.balanceManager
    ensures c.Valid() && OnlyBalances(e, c.model)
    ensures LoadBalances(c.model.funds.balances, todo[|rows|..]) == old(LoadBalances(c.model.funds.balances, todo))
  {
    var i := 0;
    while i < |rows|
      invariant 0 <= i <= |rows| && c.Valid() && OnlyBalances(e, c.model)
      invariant LoadBalances(c.model.funds.balances, todo[i..]) == old(LoadBalances(c.model.funds.balances, todo))
    {
      var (key, amount) := rows[i].value;
      assert todo[i..][0] == Values(rows)[i] && todo[i..][1..] == todo[i + 1..];
      SetBalance(c, key, amount);
      i := i + 1;
    }
  }

  lemma PageFirst<T>(table: seq<Row<T>>, last: nat)
    requires ById(table)
    ensures var rows, todo := Query(table, last), Values(After(table, last));
            Values(rows) <= todo && todo[|rows|..] == Values(After(table, LastId(rows, last)))
  {
    PageIsFront(table, last);
    ValuesConcat(Query(table, last), After(table, LastId(Query(table, last), last)));
  }

  /** Reads the balance rows of a slice, page by page, until a page is not full. */
  method LoadBalanceSlice(c: Controller, table: seq<Row<BalanceRow>>)
    requires c.Valid() && FromOne(table)
    modifies c`model, c.balanceManager
    ensures c.Valid() && OnlyBalances(old(c.model), c.model)
    ensures c.model.funds.balances == LoadBalances(old(c.model.funds.balances), Values(table))
  {
    ghost var e := c.model;
    var last: nat, more := 0, true;
    AllAfterZero(table);
    while more
      invariant c.Valid() && OnlyBalances(e, c.model)
      invariant LoadBalances(c.model.funds.balances, Values(After(table, last))) == LoadBalances(e.funds.balances, Values(table))
      invariant !more ==> After(table, last) == []
      decreases more, |After(table, last)|
    {
      var rows := Query(table, last);
      PageIsFront(table, last);
      PageFirst(table, last);
      SetBalances(c, rows, Values(After(table, last)), e);
      last := LastId(rows, last);
      more := |rows| == QUERY_LIMIT;
    }
  }

  // ---------------------------------------------------------------- orders

  /** The rows still to come can be loaded, and make `all` of these books. */
  ghost predicate CanLoad(cfg: Config, books: map<MarketName, Book>, todo: seq<Order>, all: map<MarketName, Book>)
  {
    && DistinctIds(todo) && KnownMarkets(cfg, books, todo) && Loading(books, todo)
    && LoadOrders(cfg, books, todo) == all
  }

  lemma LoadsNext(cfg: Config, books: map<MarketName, Book>, todo: seq<Order>, all: map<MarketName, Book>)
    requires todo != [] && CanLoad(cfg, books, todo, all)
    ensures todo[0].market in books && todo[0].market in cfg.confs
    ensures CanLoad(cfg, LoadOrder(cfg, books, todo[0]), todo[1..], all)
  {
    assert todo[0] in todo;
    LoadOrderKeepsLoading(cfg, books, todo);
  }

  lemma NextIsNew(cfg: Config, books: map<MarketName, Book>, todo: seq<Order>, all: map<MarketName, Book>)
    requires todo != [] && CanLoad(cfg, books, todo, all)
    ensures todo[0].market in books && todo[0].id !in BookIds(books[todo[0].market])
  {
    assert todo[0] in todo;
  }

  /** `insert_order_into_orderbook` on one of the controller's markets. */
  method InsertAt(c: Controller, o: Order)
    requires c.Valid() && o.market in c.markets && o.id !in BookIds(c.model.books[o.market])
    modifies c.markets[o.market]
    ensures c.markets[o.market].Valid() && fresh(c.markets[o.market].Cells() - old(c.markets[o.market].Cells()))
    ensures o.market in c.cfg.confs && c.markets[o.market].Abs() == LoadOrder(c.cfg, old(c.model.books), o)[o.market]
    ensures forall m | m in c.markets && c.markets[m] != c.markets[o.market] :: unchanged(c.markets[m])
    ensures forall cell: M.OrderCell | old(allocated(cell)) && cell !in old(c.markets[o.market].Cells()) :: unchanged(cell)
  {
    c.TheMarket(o.market);
    c.markets[o.market].IndexedMeansInBook(o.id);
    var _ := c.markets[o.market].InsertOrder(o);
  }

  method LoadOrderRow(c: Controller, o: Order)
    requires c.Valid() && o.market in c.markets && o.id !in BookIds(c.model.books[o.market])
    modifies c`model, c`repr, c.markets[o.market]
    ensures c.Valid() && fresh(c.repr - old(c.repr))
    ensures o.market in c.cfg.confs && c.model == old(c.model).(books := LoadOrder(c.cfg, old(c.model.books), o))
  {
    ghost var n, e := o.market, c.model;
    c.VenueIs(n);
    InsertAt(c, o);
    c.TakeOver(n, VenueOf(e, n).(book := c.markets[n].Abs()));
    c.OneChanged(n);
  }

  /** An exchange that differs from `e` in its books alone. */
  ghost predicate OnlyBooks(e: Exchange, e': Exchange)
  {
    e' == e.(books := e'.books)
  }

  /** The objects are on the way from `e` to the books `all`. */
  ghost predicate BooksComing(cfg: Config, e: Exchange, now: Exchange, todo: seq<Order>, all: map<MarketName, Book>)
  {
    OnlyBooks(e, now) && CanLoad(cfg, now.books, todo, all)
  }

  method LoadNextRow(c: Controller, o: Order, ghost todo: seq<Order>, ghost all: map<MarketName, Book>, ghost e: Exchange)
    requires c.Valid() && todo != [] && todo[0] == o && BooksComing(c.cfg, e, c.model, todo, all)
    modifies c.repr
    ensures c.Valid() && fresh(c.repr - old(c.repr)) && c.log == old(c.log) && c.persistor.events == old(c.persistor.events)
    ensures BooksComing(c.cfg, e, c.model, todo[1..], all)
  {
    NextIsNew(c.cfg, c.model.books, todo, all);
    LoadsNext(c.cfg, c.model.books, todo, all);
    c.TheMarket(o.market);
    LoadOrderRow(c, o);
  }

  lemma NextOf<T>(rows: seq<Row<T>>, todo: seq<T>, i: nat)
    requires Values(rows) <= todo && i < |rows|
    ensures todo[i..] != [] && todo[i..][0] == rows[i].value && todo[i..][1..] == todo[i + 1..]
  {
    assert Values(rows)[i] == todo[i];
  }

  /** Inserts the orders of one page. */
  method LoadOrderPage(c: Controller, rows: seq<Row<Order>>, ghost todo: seq<Order>, ghost all: map<MarketName, Book>, ghost e: Exchange)
    requires c.Valid() && Values(rows) <= todo && BooksComing(c.cfg, e, c.model, todo, all)
    modifies c.repr
    ensures c.Valid() && fresh(c.repr - old(c.repr)) && c.log == old(c.log) && c.persistor.events == old(c.persistor.events)
    ensures BooksComing(c.cfg, e, c.model, todo[|rows|..], all)
  {
    var i := 0;
    assert todo[0..] == todo;
    while i < |rows|
      invariant 0 <= i <= |rows| && c.Valid() && fresh(c.repr - old(c.repr))
      invariant c.log == old(c.log) && c.persistor.events == old(c.persistor.events)
      invariant BooksComing(c.cfg, e, c.model, todo[i..], all)
    {
      NextOf(rows, todo, i);
      LoadNextRow(c, rows[i].value, todo[i..], all, e);
      i := i + 1;
    }
  }

  /** Reads the order rows of a slice into the markets, page by page, until a page is not full. */
  method LoadOrderSlice(c: Controller, table: seq<Row<Order>>, ghost all: map<MarketName, Book>)
    requires c.Valid() && FromOne(table) && CanLoad(c.cfg, c.model.books, Values(table), all)
    modifies c.repr
    ensures c.Valid() && fresh(c.repr - old(c.repr)) && c.log == old(c.log) && c.persistor.events == old(c.persistor.events)
    ensures c.model == old(c.model).(books := all)
  {
    ghost var e := c.model;
    var last: nat, more := 0, true;
    AllAfterZero(table);
    while more
      invariant c.Valid() && fresh(c.repr - old(c.repr)) && c.log == old(c.log) && c.persistor.events == old(c.persistor.events)
      invariant BooksComing(c.cfg, e, c.model, Values(After(table, last)), all)
      invariant !more ==> After(table, last) == []
      decreases more, |After(table, last)|
    {
      var rows := Query(table, last);
      PageIsFront(table, last);
      PageFirst(table, last);
      LoadOrderPage(c, rows, Values(After(table, last)), all, e);
      last := LastId(rows, last);
      more := |rows| == QUERY_LIMIT;
    }
  }

  // ---------------------------------------------------------------- the log

  lemma {:induction false} ReplayedInTwo(cfg: Config, e: Exchange, first: seq<LogEntry>, second: seq<LogEntry>)
    ensures var r := R.Replayed(cfg, e, first);
            R.Replayed(cfg, e, first + second) == if r.Some? then R.Replayed(cfg, r.value, second) else None
    decreases |first|
  {
    if first == [] {
      assert first + second == second;
    } else {
      assert (first + second)[1..] == first[1..] + second;
      ReplayedInTwo(cfg, Exec(cfg, e, first[0].user, first[0].request).exchange, first[1..], second);
    }
  }

  /** Rows of the log: entries under their own ids. */
  ghost predicate LogTable(table: seq<Row<LogEntry>>)
  {
    ById(table) && forall i | 0 <= i < |table| :: table[i].id == table[i].value.id && SensibleRequest(table[i].value.request)
  }

  lemma QueriedAreSensible(table: seq<Row<LogEntry>>, last: nat)
    requires LogTable(table)
    ensures forall entry | entry in Values(Query(table, last)) :: SensibleRequest(entry.request)
  {
    var k := SplitAt(table, last);
    QueryIsFront(table, k, last);
  }

  /** Replays one page. */
  method ReplayPage(c: Controller, rows: seq<Row<LogEntry>>, ghost rest: seq<LogEntry>, ghost goal: Option<Exchange>) returns (ok: bool)
    requires c.Valid() && ExchangeOk(c.cfg, c.model) && forall entry | entry in Values(rows) :: SensibleRequest(entry.request)
    requires R.Replayed(c.cfg, c.model, Values(rows) + rest) == goal
    modifies c.repr
    ensures c.Valid() && fresh(c.repr - old(c.repr)) && c.log == old(c.log) && c.persistor.events == old(c.persistor.events)
    ensures !ok ==> goal == None
    ensures ok ==> ExchangeOk(c.cfg, c.model) && R.Replayed(c.cfg, c.model, rest) == goal
  {
    ReplayedInTwo(c.cfg, c.model, Values(rows), rest);
    ok := c.ReplayAll(Values(rows));
  }

  /** A page that is not empty: what it takes off the entries still to come, and what stays the same. */
  lemma PageTaken(table: seq<Row<LogEntry>>, end: nat)
    requires LogTable(table) && Query(table, end) != []
    ensures var rows := Query(table, end);
            var next := rows[|rows| - 1].id;
            && Values(After(table, end)) == Values(rows) + Values(After(table, next))
            && |After(table, next)| < |After(table, end)|
            && LastId(After(table, next), next) == LastId(After(table, end), end)
            && forall entry | entry in Values(rows) :: SensibleRequest(entry.request)
  {
    PageIsFront(table, end);
    ValuesConcat(Query(table, end), After(table, LastId(Query(table, end), end)));
    QueriedAreSensible(table, end);
  }

  /** Reads the log's rows after the slice's, page by page, until a page is empty, and replays each
      page.  A refused entry is unwrapped, so start-up panics: `ok` says that none was.  The log's
      counter is then set to the last id read. */
  method LoadOperationLog(c: Controller, table: seq<Row<LogEntry>>, start: nat) returns (ok: bool)
    requires c.Valid() && ExchangeOk(c.cfg, c.model) && LogTable(table)
    modifies c.repr
    ensures c.Valid() && fresh(c.repr - old(c.repr)) && c.log == old(c.log) && c.persistor.events == old(c.persistor.events)
    ensures var r := R.Replayed(c.cfg, old(c.model), Values(After(table, start)));
            && (ok <==> r.Some?)
            && (ok ==> c.model == r.value.(counters := r.value.counters.(operationLogId := LastId(After(table, start), start))))
  {
    ghost var goal := R.Replayed(c.cfg, c.model, Values(After(table, start)));
    var end := start;
    var rows := Query(table, end);
    while rows != []
      invariant c.Valid() && fresh(c.repr - old(c.repr)) && c.log == old(c.log) && c.persistor.events == old(c.persistor.events)
      invariant ExchangeOk(c.cfg, c.model) && rows == Query(table, end)
      invariant R.Replayed(c.cfg, c.model, Values(After(table, end))) == goal
      invariant LastId(After(table, end), end) == LastId(After(table, start), start)
      decreases |After(table, end)|
    {
      PageTaken(table, end);
      end := rows[|rows| - 1].id;
      ok := ReplayPage(c, rows, Values(After(table, end)), goal);
      if !ok {
        return;
      }
      rows := Query(table, end);
    }
    PageIsFront(table, end);
    ok := true;
    c.SetOperationLogId(end);
  }

  // ---------------------------------------------------------------- starting up

  /** A slice as its tables hold it: order rows have the orders' ids. */
  datatype StoredSlice = StoredSlice(balances: seq<Row<BalanceRow>>, orders: seq<Row<Order>>, ends: Counters)

  ghost predicate SliceTables(s: StoredSlice)
  {
    FromOne(s.balances) && FromOne(s.orders) && forall i | 0 <= i < |s.orders| :: s.orders[i].id == s.orders[i].value.id
  }

  function SliceIn(s: StoredSlice): Slice
  {
    Slice(Values(s.balances), Values(s.orders), s.ends)
  }

  /** The tables after a dump: balance rows get their ids as they come in, order rows are found by the
      orders' own ids, so they are read back in another order than they were written. */
  ghost predicate Stores(s: StoredSlice, dump: Slice)
  {
    && SliceTables(s) && Values(s.balances) == dump.balances
    && multiset(Values(s.orders)) == multiset(dump.orders) && s.ends == dump.ends
  }

  lemma StoredIsSlice(e: Exchange, s: StoredSlice, dump: Slice)
    requires SliceOf(e, dump) && Stores(s, dump)
    ensures SliceOf(e, SliceIn(s))
  {
    var rows := Values(s.orders);
    forall o
      ensures o in rows <==> o in dump.orders
    {
      assert o in rows <==> o in multiset(rows);
      assert o in dump.orders <==> o in multiset(dump.orders);
    }
  }

  method SetIds(c: Controller, orderId: nat, tradeId: nat)
    requires c.Valid()
    modifies c`model, c.sequencer
    ensures c.Valid()
    ensures c.model == old(c.model).(counters := Counters(orderId, tradeId, old(c.model.counters.operationLogId)))
  {
    c.sequencer.orderId, c.sequencer.tradeId := orderId, tradeId;
    c.SetModel(c.model.(counters := Counters(orderId, tradeId, c.model.counters.operationLogId)));
    c.LedgerChanged();
  }

  /** The empty books can take the rows of a slice. */
  lemma EmptyBooksLoad(cfg: Config, e: Exchange, s: Slice)
    requires ExchangeOk(cfg, e) && SliceOf(e, s)
    ensures KnownMarkets(cfg, Genesis(cfg).exchange.books, s.orders)
    ensures CanLoad(cfg, Genesis(cfg).exchange.books, s.orders, Loaded(cfg, s).books)
  {
    DumpedIsBacked(cfg, e, s.orders);
  }

  /** `load_slice_from_db` and the two ids: balances first, then orders. */
  method LoadSlice(c: Controller, s: StoredSlice, ghost e: Exchange)
    requires c.Valid() && c.model == Genesis(c.cfg).exchange && SliceTables(s)
    requires ExchangeOk(c.cfg, e) && SliceOf(e, SliceIn(s))
    modifies c.repr
    ensures c.Valid() && fresh(c.repr - old(c.repr)) && c.log == old(c.log) && c.persistor.events == old(c.persistor.events)
    ensures KnownMarkets(c.cfg, Genesis(c.cfg).exchange.books, SliceIn(s).orders)
    ensures c.model == Loaded(c.cfg, SliceIn(s))
  {
    EmptyBooksLoad(c.cfg, e, SliceIn(s));
    LoadBalanceSlice(c, s.balances);
    LoadOrderSlice(c, s.orders, Loaded(c.cfg, SliceIn(s)).books);
    SetIds(c, s.ends.orderId, s.ends.tradeId);
  }

  datatype Database = Database(slice: Option<StoredSlice>, log: seq<Row<LogEntry>>)

  /** The slice start-up begins with: the last one stored, or nothing. */
  function Begins(db: Database): Slice
  {
    if db.slice.Some? then SliceIn(db.slice.value) else Slice([], [], Counters(0, 0, 0))
  }

  /** The slice stored last, if there is one, is a slice of `e`, and `e` is empty if there is none. */
  ghost predicate BeginsWith(cfg: Config, db: Database, e: Exchange)
  {
    && ExchangeOk(cfg, e) && SliceOf(e, Begins(db)) && LogTable(db.log)
    && (db.slice.Some? ==> SliceTables(db.slice.value))
  }

  lemma LastEntryId(table: seq<Row<LogEntry>>, start: nat)
    requires LogTable(table)
    ensures var entries := EntriesAfter(Values(table), start);
            && entries == Values(After(table, start))
            && LastId(After(table, start), start) == if entries == [] then start else entries[|entries| - 1].id
  {
    PagesAreEntriesAfter(table, start);
    if After(table, start) != [] {
      AfterSplit(table, SplitAt(table, start), start);
    }
  }

  lemma RecoveredUnfolds(cfg: Config, s: Slice, log: seq<LogEntry>, entries: seq<LogEntry>, id: nat)
    requires KnownMarkets(cfg, Genesis(cfg).exchange.books, s.orders) && entries == EntriesAfter(log, s.ends.operationLogId)
    requires id == if entries == [] then s.ends.operationLogId else entries[|entries| - 1].id
    ensures var r := R.Replayed(cfg, Loaded(cfg, s), entries);
            Recovered(cfg, s, log) == if r.None? then None else Some(r.value.(counters := r.value.counters.(operationLogId := id)))
  {
  }

  lemma RecoveredIs(cfg: Config, db: Database, e: Exchange)
    requires BeginsWith(cfg, db, e)
    ensures KnownMarkets(cfg, Genesis(cfg).exchange.books, Begins(db).orders) && ExchangeOk(cfg, Loaded(cfg, Begins(db)))
    ensures var start := Begins(db).ends.operationLogId;
            var r := R.Replayed(cfg, Loaded(cfg, Begins(db)), Values(After(db.log, start)));
            Recovered(cfg, Begins(db), Values(db.log))
            == if r.None? then None
               else Some(r.value.(counters := r.value.counters.(operationLogId := LastId(After(db.log, start), start))))
  {
    var start := Begins(db).ends.operationLogId;
    LoadedIsTwin(cfg, e, Begins(db));
    LastEntryId(db.log, start);
    RecoveredUnfolds(cfg, Begins(db), Values(db.log), Values(After(db.log, start)), LastId(After(db.log, start), start));
  }

  lemma NothingIsLoaded(cfg: Config)
    ensures KnownMarkets(cfg, Genesis(cfg).exchange.books, [])
    ensures Loaded(cfg, Slice([], [], Counters(0, 0, 0))) == Genesis(cfg).exchange
  {
  }

  /** `init_from_db`, on a controller that has done nothing yet. */
  method InitFromDb(c: Controller, db: Database, ghost e: Exchange) returns (ok: bool)
    requires c.Valid() && c.model == Genesis(c.cfg).exchange && BeginsWith(c.cfg, db, e)
    modifies c.repr
    ensures c.Valid() && fresh(c.repr - old(c.repr)) && c.log == old(c.log) && c.persistor.events == old(c.persistor.events)
    ensures KnownMarkets(c.cfg, Genesis(c.cfg).exchange.books, Begins(db).orders)
    ensures var r := Recovered(c.cfg, Begins(db), Values(db.log));
            (ok <==> r.Some?) && (ok ==> c.model == r.value)
  {
    RecoveredIs(c.cfg, db, e);
    NothingIsLoaded(c.cfg);
    var start := 0;
    if db.slice.Some? {
      LoadSlice(c, db.slice.value, e);
      start := db.slice.value.ends.operationLogId;
    }
    ok := LoadOperationLog(c, db.log, start);
  }

  /** Crash recovery on the objects.  The database holds what a dump at `w` wrote and what the run of
      `inputs` logged; none of the run's refusals left a trace.  Start-up succeeds exactly if no
      deposit or withdrawal key was used twice since the dump, and then the objects hold the balances,
      open orders and counters the run ended with. */
  method RecoverRun(c: Controller, db: Database, ghost dump: Slice, ghost w: World, ghost inputs: seq<Input>) returns (ok: bool)
    requires c.Valid() && c.model == Genesis(c.cfg).exchange
    requires WorldOk(c.cfg, w) && Numbered(w) && SliceOf(w.exchange, dump)
    requires R.SensibleInputs(inputs) && R.RefusalsLeaveNoTrace(c.cfg, w, inputs)
    requires db.slice.Some? && Stores(db.slice.value, dump)
    requires LogTable(db.log) && Values(db.log) == Run(c.cfg, w, inputs).log
    modifies c.repr
    ensures c.Valid() && fresh(c.repr - old(c.repr))
    ensures ok <==> R.FreshKeys(c.cfg, {}, R.LoggedBy(c.cfg, w, inputs))
    ensures var end := Run(c.cfg, w, inputs);
            ok ==> R.SameExchange(end.exchange, c.model) && c.model.counters == end.exchange.counters && ExchangeOk(c.cfg, c.model)
  {
    StoredIsSlice(w.exchange, db.slice.value, dump);
    RecoveryIsExact(c.cfg, w, Begins(db), inputs);
    ok := InitFromDb(c, db, w.exchange);
  }
}
