/** Making a slice: every open order of every market and every balance goes to the database once, in
    whatever order the maps give them, through statements that may fail and are retried. */
module Dumping {
  import opened Types
  import opened Orders
  import opened Ledger
  import opened Balances
  import opened Matching
  import opened BookInvariant
  import opened Exchange
  import opened ExchangeInvariant
  import opened Iteration
  import opened InsertBatch
  import opened Markets
  import opened Controllers
  import opened Snapshot

  /** How many records are sent in one go. */
  const DUMPING_SET_LIMIT: nat := 100000

  // ---------------------------------------------------------------- balances

  lemma OneMoreBalance(b: Ledger.Balances, seen: Ledger.Balances, rows: seq<BalanceRow>, k: BalanceKey)
    requires k in b && k !in seen && BalancesDumped(seen, rows)
    ensures BalancesDumped(seen[k := b[k]], rows + [(k, b[k])])
  {
    var rows' := rows + [(k, b[k])];
    forall i | 0 <= i < |rows|
      ensures rows[i].0 != k
    {
      assert HasRow(rows, rows[i].0, rows[i].1);
      assert Holds(seen, rows[i].0, rows[i].1);
    }
    forall l, v
      ensures HasRow(rows', l, v) <==> Holds(seen[k := b[k]], l, v)
    {
      assert HasRow(rows, l, v) <==> Holds(seen, l, v);
      assert (l, v) in rows' <==> (l, v) in rows || (l, v) == (k, b[k]);
      if HasRow(rows, l, v) {
        assert l != k;
      }
    }
  }

  /** One row for each balance. */
  method BalanceRows(bm: BalanceManager) returns (rows: seq<BalanceRow>)
    ensures BalancesDumped(bm.balances, rows)
  {
    rows := [];
    var todo := bm.balances.Keys;
    ghost var seen: Ledger.Balances := map[];
    while todo != {}
      invariant todo <= bm.balances.Keys && seen == bm.balances - todo
      invariant BalancesDumped(seen, rows)
      decreases |todo|
    {
      var k := AnyOf(todo);
      OneMoreBalance(bm.balances, seen, rows, k);
      rows := rows + [(k, bm.balances[k])];
      seen := seen[k := bm.balances[k]];
      todo := todo - {k};
    }
    assert seen == bm.balances;
  }

  method DumpBalance(bm: BalanceManager, conn: Connection<BalanceRow>)
    requires conn.table == []
    modifies conn
    ensures BalancesDumped(bm.balances, conn.table)
  {
    var rows := BalanceRows(bm);
    var iter := new RowIter(rows);
    var _ := DumpRecords(iter, DUMPING_SET_LIMIT, conn);
    assert [] + rows == rows;
  }

  // ---------------------------------------------------------------- orders

  /** The rows hold the orders of these cells, each under an id of `ids`, and no others. */
  ghost predicate RowsOfIds(orders: ById, ids: set<nat>, rows: seq<Order>)
    requires ids <= orders.Keys
    reads orders.Values
  {
    && DistinctIds(rows)
    && forall o :: o in rows <==> o.id in ids && orders[o.id].order == o
  }

  lemma OneMoreOrder(orders: ById, ids: set<nat>, rows: seq<Order>, id: nat)
    requires ids <= orders.Keys && id in orders && id !in ids && RowsOfIds(orders, ids, rows) && orders[id].order.id == id
    ensures RowsOfIds(orders, ids + {id}, rows + [orders[id].order])
  {
    var o := orders[id].order;
    var rows' := rows + [o];
    forall i | 0 <= i < |rows|
      ensures rows[i].id in ids
    {
      assert rows[i] in rows;
    }
    forall x
      ensures x in rows' <==> x.id in ids + {id} && orders[x.id].order == x
    {
      assert x in rows' <==> x in rows || x == o;
    }
  }

  /** The orders of one market's index, in whatever order they come. */
  method IndexRows(orders: ById) returns (rows: seq<Order>)
    requires forall id | id in orders :: orders[id].order.id == id
    ensures RowsOfIds(orders, orders.Keys, rows)
  {
    rows := [];
    var todo := orders.Keys;
    assert orders.Keys - todo == {};
    while todo != {}
      invariant todo <= orders.Keys && RowsOfIds(orders, orders.Keys - todo, rows)
      decreases |todo|
    {
      var id := AnyOf(todo);
      OneMoreOrder(orders, orders.Keys - todo, rows, id);
      rows := rows + [orders[id].order];
      assert orders.Keys - (todo - {id}) == (orders.Keys - todo) + {id};
      todo := todo - {id};
    }
    assert orders.Keys - todo == orders.Keys;
  }

  /** A market's index and its book hold the same orders, each on its own side. */
  lemma IndexIsBook(market: Market, rows: seq<Order>, o: Order)
    requires market.Valid() && RowsOfIds(market.orders, market.orders.Keys, rows)
    ensures o in rows <==> o in market.Abs().Side(o.side)
  {
    if o in rows {
      IndexedIsOnSide(market, o.id);
    }
    if o in market.Abs().Side(o.side) {
      var s := market.Side(o.side);
      var i :| 0 <= i < |s| && market.Abs().Side(o.side)[i] == o;
      assert s[i].cell in market.Cells() && s[i].cell.order == o;
      market.CellIsIndexed(s[i].cell);
    }
  }

  lemma IndexedIsOnSide(market: Market, id: nat)
    requires market.Valid() && id in market.orders
    ensures market.orders[id].order in market.Abs().Side(market.orders[id].order.side)
  {
    var cell := market.orders[id];
    if cell in CellsOf(market.asks) {
      var i :| 0 <= i < |market.asks| && market.asks[i].cell == cell;
      assert market.Abs().asks[i] == cell.order;
    } else {
      var i :| 0 <= i < |market.bids| && market.bids[i].cell == cell;
      assert market.Abs().bids[i] == cell.order;
    }
  }

  ghost predicate RowsOfBook(b: Book, rows: seq<Order>)
  {
    DistinctIds(rows) && forall o :: o in rows <==> o in b.Side(o.side)
  }

  method MarketRows(market: Market) returns (rows: seq<Order>)
    requires market.Valid()
    ensures RowsOfBook(market.Abs(), rows)
  {
    rows := IndexRows(market.orders);
    forall o
      ensures o in rows <==> o in market.Abs().Side(o.side)
    {
      IndexIsBook(market, rows, o);
    }
  }

  /** The rows hold every open order of these markets, and no others. */
  ghost predicate RowsOfMarkets(books: map<MarketName, Book>, done: set<MarketName>, rows: seq<Order>)
  {
    DistinctIds(rows) && forall o :: o in rows <==> o.market in done && Resting(books, o.market, o.side, o)
  }

  lemma RestingId(b: Book, side: OrderSide, o: Order)
    requires o in b.Side(side)
    ensures o.id in BookIds(b)
  {
    var all := b.asks + b.bids;
    var i :| 0 <= i < |b.Side(side)| && b.Side(side)[i] == o;
    assert all[if side == ASK then i else |b.asks| + i] == o;
  }

  lemma RowsApart(cfg: Config, e: Exchange, done: set<MarketName>, rows: seq<Order>, n: MarketName, more: seq<Order>)
    requires ExchangeOk(cfg, e) && done <= e.books.Keys && n in e.books && n !in done
    requires RowsOfMarkets(e.books, done, rows) && RowsOfBook(e.books[n], more)
    ensures DistinctIds(rows + more)
  {
    forall i, j | 0 <= i < |rows| && 0 <= j < |more|
      ensures rows[i].id != more[j].id
    {
      var o, p := rows[i], more[j];
      assert o in rows && p in more;
      RestingId(e.books[o.market], o.side, o);
      RestingId(e.books[n], p.side, p);
    }
  }

  lemma OneMoreMarket(cfg: Config, e: Exchange, done: set<MarketName>, rows: seq<Order>, n: MarketName, more: seq<Order>)
    requires ExchangeOk(cfg, e) && done <= e.books.Keys && n in e.books && n !in done
    requires RowsOfMarkets(e.books, done, rows) && RowsOfBook(e.books[n], more)
    ensures RowsOfMarkets(e.books, done + {n}, rows + more)
  {
    RowsApart(cfg, e, done, rows, n, more);
    forall o
      ensures o in rows + more <==> o.market in done + {n} && Resting(e.books, o.market, o.side, o)
    {
      assert o in rows + more <==> o in rows || o in more;
      if o in more {
        RestingIsWorking(cfg, e, n, o.side, o);
      }
    }
  }

  method WithMarket(c: Controller, n: MarketName, rows: seq<Order>, ghost done: set<MarketName>) returns (all: seq<Order>)
    requires c.Valid() && ExchangeOk(c.cfg, c.model) && n in c.markets
    requires done <= c.model.books.Keys && n !in done && RowsOfMarkets(c.model.books, done, rows)
    ensures RowsOfMarkets(c.model.books, done + {n}, all)
  {
    c.TheMarket(n);
    var more := MarketRows(c.markets[n]);
    OneMoreMarket(c.cfg, c.model, done, rows, n, more);
    all := rows + more;
  }

  /** Every open order of every market, market by market. */
  method OrderRows(c: Controller) returns (rows: seq<Order>)
    requires c.Valid() && ExchangeOk(c.cfg, c.model)
    ensures OrdersDumped(c.model.books, rows)
  {
    rows := [];
    var todo := c.markets.Keys;
    ghost var done: set<MarketName> := {};
    while todo != {}
      invariant todo <= c.markets.Keys && done == c.markets.Keys - todo
      invariant RowsOfMarkets(c.model.books, done, rows)
      decreases |todo|
    {
      var n := AnyOf(todo);
      rows := WithMarket(c, n, rows, done);
      done, todo := done + {n}, todo - {n};
    }
  }

  method DumpOrders(c: Controller, conn: Connection<Order>)
    requires c.Valid() && ExchangeOk(c.cfg, c.model) && conn.table == []
    modifies conn
    ensures OrdersDumped(c.model.books, conn.table)
  {
    var rows := OrderRows(c);
    var iter := new RowIter(rows);
    var _ := DumpRecords(iter, DUMPING_SET_LIMIT, conn);
    assert [] + rows == rows;
  }

  /** `dump_to_db`: first the orders, then the balances, then the slice's entry in the history.  What
      the tables hold in the end is a slice of the exchange. */
  method DumpToDb(c: Controller, orders: Connection<Order>, balances: Connection<BalanceRow>) returns (ends: Counters)
    requires c.Valid() && ExchangeOk(c.cfg, c.model) && orders.table == [] && balances.table == []
    modifies orders, balances
    ensures SliceOf(c.model, Slice(balances.table, orders.table, ends))
  {
    DumpOrders(c, orders);
    DumpBalance(c.balanceManager, balances);
    ends := Counters(c.sequencer.orderId, c.sequencer.tradeId, c.sequencer.operationLogId);
  }
}
