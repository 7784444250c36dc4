/** The market object: four indexes over one set of shared order cells, changed in place. */
module Markets {
  import opened Types
  import opened Orders
  import opened Ledger
  import opened Balances
  import opened Matching
  import opened MatchLoop
  import opened MatchShape
  import opened BookInvariant
  import opened Iteration
  import opened VenueInvariant

  /** The cell all indexes share. */
  class OrderCell {
    var order: Order

    constructor (order: Order)
      ensures this.order == order
    {
      this.order := order;
    }
  }

  /** An entry of an ordered map: its key was copied from the order when it was put in. */
  datatype Entry = Entry(key: OrderKey, cell: OrderCell)

  ghost function CellsOf(s: seq<Entry>): set<OrderCell>
  {
    set i | 0 <= i < |s| :: s[i].cell
  }

  /** The orders of one ordered map, in key order, as they are now. */
  ghost function OrdersOf(s: seq<Entry>): (r: seq<Order>)
    reads CellsOf(s)
    ensures |r| == |s| && forall i | 0 <= i < |s| :: r[i] == s[i].cell.order
  {
    seq(|s|, i requires 0 <= i < |s| reads CellsOf(s) => s[i].cell.order)
  }

  ghost predicate KeyedBy(side: OrderSide, s: seq<Entry>)
    reads CellsOf(s)
  {
    && (forall i | 0 <= i < |s| :: s[i].key == KeyOf(s[i].cell.order) && s[i].cell.order.side == side)
    && (forall i, j | 0 <= i < j < |s| :: s[i].cell != s[j].cell)
  }

  /** Puts an entry in where its key belongs. */
  function InsertEntry(side: OrderSide, s: seq<Entry>, e: Entry): seq<Entry>
  {
    if s == [] || Before(side, e.key, s[0].key) then [e] + s
    else [s[0]] + InsertEntry(side, s[1..], e)
  }

  lemma {:induction false} InsertEntrySplits(side: OrderSide, s: seq<Entry>, e: Entry) returns (i: nat)
    ensures i <= |s| && InsertEntry(side, s, e) == s[..i] + [e] + s[i..]
    ensures i < |s| ==> Before(side, e.key, s[i].key)
    ensures forall j | 0 <= j < i :: !Before(side, e.key, s[j].key)
  {
    if s == [] || Before(side, e.key, s[0].key) {
      i := 0;
    } else {
      i := InsertEntrySplits(side, s[1..], e);
      i := i + 1;
      assert s[..i] == [s[0]] + s[1..][..i - 1];
    }
  }

  lemma PutKeyed(side: OrderSide, s: seq<Entry>, i: nat, e: Entry)
    requires KeyedBy(side, s) && i <= |s|
    requires e.key == KeyOf(e.cell.order) && e.cell.order.side == side && e.cell !in CellsOf(s)
    ensures KeyedBy(side, s[..i] + [e] + s[i..])
  {
    var r := s[..i] + [e] + s[i..];
    assert forall j | 0 <= j < i :: r[j] == s[j];
    assert forall j | i < j < |r| :: r[j] == s[j - 1];
    forall j, k | 0 <= j < k < |r|
      ensures r[j].cell != r[k].cell
    {
      if j == i {
        assert s[k - 1].cell in CellsOf(s);
      } else if k == i {
        assert s[j].cell in CellsOf(s);
      }
    }
  }

  lemma PutCells(s: seq<Entry>, i: nat, e: Entry)
    requires i <= |s|
    ensures CellsOf(s[..i] + [e] + s[i..]) == CellsOf(s) + {e.cell}
  {
    var r := s[..i] + [e] + s[i..];
    assert r[i] == e;
    forall c | c in CellsOf(s)
      ensures c in CellsOf(r)
    {
      var j :| 0 <= j < |s| && s[j].cell == c;
      assert r[if j < i then j else j + 1] == s[j];
    }
    forall c | c in CellsOf(r)
      ensures c in CellsOf(s) + {e.cell}
    {
      var j :| 0 <= j < |r| && r[j].cell == c;
      if j != i {
        assert r[j] == s[if j < i then j else j - 1];
      }
    }
  }

  lemma PutOrders(s: seq<Entry>, i: nat, e: Entry)
    requires i <= |s|
    ensures OrdersOf(s[..i] + [e] + s[i..]) == OrdersOf(s)[..i] + [e.cell.order] + OrdersOf(s)[i..]
  {
  }

  /** No cell is in the map twice. */
  ghost predicate OwnCells(s: seq<Entry>)
  {
    forall i, j | 0 <= i < |s| && 0 <= j < |s| && i != j :: s[i].cell != s[j].cell
  }

  lemma KeyedOwnCells(side: OrderSide, s: seq<Entry>)
    requires KeyedBy(side, s)
    ensures OwnCells(s)
  {
  }

  /** The ordered map's insertion is the insertion of module Orders, on the orders it holds. */
  lemma InsertEntryInsertsOrder(side: OrderSide, s: seq<Entry>, e: Entry)
    requires KeyedBy(side, s) && e.key == KeyOf(e.cell.order) && e.cell.order.side == side && e.cell !in CellsOf(s)
    ensures OrdersOf(InsertEntry(side, s, e)) == Orders.Insert(side, OrdersOf(s), e.cell.order)
    ensures KeyedBy(side, InsertEntry(side, s, e))
    ensures CellsOf(InsertEntry(side, s, e)) == CellsOf(s) + {e.cell}
  {
    var i := InsertEntrySplits(side, s, e);
    var k := InsertSplits(side, OrdersOf(s), e.cell.order);
    assert i == k;
    PutKeyed(side, s, i, e);
    PutCells(s, i, e);
    PutOrders(s, i, e);
  }

  function IndexOfKey(s: seq<Entry>, key: OrderKey): (i: nat)
    ensures i <= |s|
    ensures i < |s| ==> s[i].key == key
    ensures forall j | 0 <= j < i :: s[j].key != key
  {
    if s == [] || s[0].key == key then 0 else 1 + IndexOfKey(s[1..], key)
  }

  /** Takes the entry with this key out, if there is one. */
  function RemoveEntry(s: seq<Entry>, key: OrderKey): seq<Entry>
  {
    var i := IndexOfKey(s, key);
    if i < |s| then s[..i] + s[i + 1..] else s
  }

  function Cut(s: seq<Entry>, p: nat): seq<Entry>
    requires p < |s|
  {
    s[..p] + s[p + 1..]
  }

  lemma CutEntries(s: seq<Entry>, p: nat)
    requires p < |s|
    ensures forall j | 0 <= j < |s| - 1 :: Cut(s, p)[j] == s[if j < p then j else j + 1]
  {
  }

  lemma CutKeyed(side: OrderSide, s: seq<Entry>, p: nat)
    requires KeyedBy(side, s) && p < |s|
    ensures KeyedBy(side, Cut(s, p))
  {
    CutEntries(s, p);
  }

  lemma CutCells(side: OrderSide, s: seq<Entry>, p: nat)
    requires KeyedBy(side, s) && p < |s|
    ensures CellsOf(Cut(s, p)) == CellsOf(s) - {s[p].cell}
  {
    CutEntries(s, p);
    var r := Cut(s, p);
    forall c | c in CellsOf(s) && c != s[p].cell
      ensures c in CellsOf(r)
    {
      var j :| 0 <= j < |s| && s[j].cell == c;
      assert r[if j < p then j else j - 1] == s[j];
    }
    forall c | c in CellsOf(r)
      ensures c in CellsOf(s) - {s[p].cell}
    {
      var j :| 0 <= j < |r| && r[j].cell == c;
      assert r[j] == s[if j < p then j else j + 1];
    }
  }

  lemma CutOrders(s: seq<Entry>, p: nat)
    requires p < |s|
    ensures OrdersOf(Cut(s, p)) == OrdersOf(s)[..p] + OrdersOf(s)[p + 1..]
  {
  }

  lemma RemoveEntryRemovesOrder(side: OrderSide, s: seq<Entry>, p: nat)
    requires KeyedBy(side, s) && p < |s| && DistinctIds(OrdersOf(s))
    ensures RemoveEntry(s, s[p].key) == Cut(s, p)
    ensures OrdersOf(Cut(s, p)) == Without(OrdersOf(s), s[p].cell.order.id)
    ensures KeyedBy(side, Cut(s, p)) && CellsOf(Cut(s, p)) == CellsOf(s) - {s[p].cell}
  {
    var i := IndexOfKey(s, s[p].key);
    assert OrdersOf(s)[i].id == OrdersOf(s)[p].id;
    WithoutSplits(OrdersOf(s), s[p].cell.order.id, p);
    CutKeyed(side, s, p);
    CutCells(side, s, p);
    CutOrders(s, p);
  }

  // ---------------------------------------------------------------- the unordered indexes

  type ById = map<nat, OrderCell>

  type ByUser = map<Uuid, ById>

  /** The id index holds exactly these cells, each under its order's id. */
  ghost predicate OrdersIndex(orders: ById, cells: set<OrderCell>)
    reads cells
  {
    && (forall id | id in orders :: orders[id] in cells && orders[id].order.id == id)
    && (forall c | c in cells :: c.order.id in orders && orders[c.order.id] == c)
  }

  /** The user index holds exactly the same cells, each under its order's user and id. */
  ghost predicate UsersIndex(users: ByUser, cells: set<OrderCell>)
    reads cells
  {
    && (forall u, id | u in users && id in users[u] :: users[u][id] in cells && users[u][id].order.user == u && users[u][id].order.id == id)
    && (forall c | c in cells :: c.order.user in users && c.order.id in users[c.order.user] && users[c.order.user][c.order.id] == c)
  }

  function AddToUsers(users: ByUser, o: Order, cell: OrderCell): ByUser
  {
    var mine: ById := if o.user in users then users[o.user] else map[];
    users[o.user := mine[o.id := cell]]
  }

  function RemoveFromUsers(users: ByUser, o: Order): ByUser
    requires o.user in users
  {
    users[o.user := users[o.user] - {o.id}]
  }

  lemma AddedToOrders(orders: ById, cells: set<OrderCell>, cell: OrderCell)
    requires OrdersIndex(orders, cells) && cell !in cells && cell.order.id !in orders
    ensures OrdersIndex(orders[cell.order.id := cell], cells + {cell})
  {
  }

  lemma AddedToUsers(users: ByUser, orders: ById, cells: set<OrderCell>, cell: OrderCell)
    requires OrdersIndex(orders, cells) && UsersIndex(users, cells) && cell !in cells && cell.order.id !in orders
    ensures UsersIndex(AddToUsers(users, cell.order, cell), cells + {cell})
  {
    var users' := AddToUsers(users, cell.order, cell);
    forall c | c in cells + {cell}
      ensures c.order.user in users' && c.order.id in users'[c.order.user] && users'[c.order.user][c.order.id] == c
    {
      if c != cell {
        assert c in cells && c.order.id != cell.order.id;
      }
    }
  }

  lemma RemovedFromOrders(orders: ById, cells: set<OrderCell>, cell: OrderCell)
    requires OrdersIndex(orders, cells) && cell in cells
    ensures OrdersIndex(orders - {cell.order.id}, cells - {cell})
  {
  }

  lemma RemovedFromUsers(users: ByUser, orders: ById, cells: set<OrderCell>, cell: OrderCell)
    requires OrdersIndex(orders, cells) && UsersIndex(users, cells) && cell in cells
    ensures cell.order.user in users
    ensures UsersIndex(RemoveFromUsers(users, cell.order), cells - {cell})
  {
    var users' := RemoveFromUsers(users, cell.order);
    forall c | c in cells - {cell}
      ensures c.order.user in users' && c.order.id in users'[c.order.user] && users'[c.order.user][c.order.id] == c
    {
      assert c in cells && c.order.id != cell.order.id;
    }
  }

  /** All four indexes describe the same orders. */
  ghost predicate IndexesOk(asks: seq<Entry>, bids: seq<Entry>, orders: ById, users: ByUser)
    reads CellsOf(asks), CellsOf(bids)
  {
    && KeyedBy(ASK, asks) && KeyedBy(BID, bids) && CellsOf(asks) !! CellsOf(bids)
    && OrdersIndex(orders, CellsOf(asks) + CellsOf(bids)) && UsersIndex(users, CellsOf(asks) + CellsOf(bids))
  }

  lemma AddedToIndexes(asks: seq<Entry>, bids: seq<Entry>, orders: ById, users: ByUser, cell: OrderCell)
    requires IndexesOk(asks, bids, orders, users)
    requires cell !in CellsOf(asks) + CellsOf(bids) && cell.order.id !in orders
    ensures var o, e := cell.order, Entry(KeyOf(cell.order), cell);
            var asks' := if o.side == ASK then InsertEntry(ASK, asks, e) else asks;
            var bids' := if o.side == ASK then bids else InsertEntry(BID, bids, e);
            && IndexesOk(asks', bids', orders[o.id := cell], AddToUsers(users, o, cell))
            && CellsOf(asks') + CellsOf(bids') == CellsOf(asks) + CellsOf(bids) + {cell}
            && (if o.side == ASK then OrdersOf(asks') == Orders.Insert(ASK, OrdersOf(asks), o)
                else OrdersOf(bids') == Orders.Insert(BID, OrdersOf(bids), o))
  {
    var o, e, cells := cell.order, Entry(KeyOf(cell.order), cell), CellsOf(asks) + CellsOf(bids);
    AddedToOrders(orders, cells, cell);
    AddedToUsers(users, orders, cells, cell);
    if o.side == ASK {
      InsertEntryInsertsOrder(ASK, asks, e);
      assert CellsOf(InsertEntry(ASK, asks, e)) + CellsOf(bids) == cells + {cell};
    } else {
      InsertEntryInsertsOrder(BID, bids, e);
      assert CellsOf(asks) + CellsOf(InsertEntry(BID, bids, e)) == cells + {cell};
    }
  }

  /** One side without an order, if it is on that side. */
  function SideWithout(side: OrderSide, s: seq<Entry>, o: Order): seq<Entry>
  {
    if o.side == side then RemoveEntry(s, KeyOf(o)) else s
  }

  lemma SideWithoutIsOk(side: OrderSide, s: seq<Entry>, cell: OrderCell)
    requires KeyedBy(side, s) && DistinctIds(OrdersOf(s)) && (cell in CellsOf(s) <==> cell.order.side == side)
    ensures var s' := SideWithout(side, s, cell.order);
            && KeyedBy(side, s') && CellsOf(s') == CellsOf(s) - {cell}
            && OrdersOf(s') == if cell.order.side == side then Without(OrdersOf(s), cell.order.id) else OrdersOf(s)
  {
    if cell in CellsOf(s) {
      var p :| 0 <= p < |s| && s[p].cell == cell;
      RemoveEntryRemovesOrder(side, s, p);
    }
  }

  lemma CellIsOnItsSide(asks: seq<Entry>, bids: seq<Entry>, cell: OrderCell)
    requires KeyedBy(ASK, asks) && KeyedBy(BID, bids) && cell in CellsOf(asks) + CellsOf(bids)
    ensures cell in CellsOf(asks) <==> cell.order.side == ASK
    ensures cell in CellsOf(bids) <==> cell.order.side == BID
  {
  }

  lemma SidesWithout(asks: seq<Entry>, bids: seq<Entry>, cell: OrderCell)
    requires KeyedBy(ASK, asks) && KeyedBy(BID, bids) && cell in CellsOf(asks) + CellsOf(bids)
    requires DistinctIds(OrdersOf(asks)) && DistinctIds(OrdersOf(bids))
    ensures var o := cell.order;
            var asks', bids' := SideWithout(ASK, asks, o), SideWithout(BID, bids, o);
            && KeyedBy(ASK, asks') && CellsOf(asks') == CellsOf(asks) - {cell}
            && KeyedBy(BID, bids') && CellsOf(bids') == CellsOf(bids) - {cell}
            && OrdersOf(asks') == (if o.side == ASK then Without(OrdersOf(asks), o.id) else OrdersOf(asks))
            && OrdersOf(bids') == (if o.side == BID then Without(OrdersOf(bids), o.id) else OrdersOf(bids))
  {
    CellIsOnItsSide(asks, bids, cell);
    SideWithoutIsOk(ASK, asks, cell);
    SideWithoutIsOk(BID, bids, cell);
  }

  lemma RemovedFromIndexes(asks: seq<Entry>, bids: seq<Entry>, orders: ById, users: ByUser, cell: OrderCell)
    requires IndexesOk(asks, bids, orders, users) && cell in CellsOf(asks) + CellsOf(bids)
    ensures var o := cell.order;
            var asks', bids' := SideWithout(ASK, asks, o), SideWithout(BID, bids, o);
            && o.user in users && o.id in orders && orders[o.id] == cell
            && IndexesOk(asks', bids', orders - {o.id}, RemoveFromUsers(users, o))
            && CellsOf(asks') + CellsOf(bids') == CellsOf(asks) + CellsOf(bids) - {cell}
            && OrdersOf(asks') == (if o.side == ASK then Without(OrdersOf(asks), o.id) else OrdersOf(asks))
            && OrdersOf(bids') == (if o.side == BID then Without(OrdersOf(bids), o.id) else OrdersOf(bids))
  {
    var o, cells := cell.order, CellsOf(asks) + CellsOf(bids);
    IdsDiffer(asks, bids, orders, users);
    SidesWithout(asks, bids, cell);
    RemovedFromOrders(orders, cells, cell);
    RemovedFromUsers(users, orders, cells, cell);
    assert CellsOf(SideWithout(ASK, asks, o)) + CellsOf(SideWithout(BID, bids, o)) == cells - {cell};
  }

  /** One id, one cell: so ids are distinct, within each side and across. */
  lemma IdsDiffer(asks: seq<Entry>, bids: seq<Entry>, orders: ById, users: ByUser)
    requires IndexesOk(asks, bids, orders, users)
    ensures DistinctIds(OrdersOf(asks)) && DistinctIds(OrdersOf(bids))
    ensures forall i, j | 0 <= i < |asks| && 0 <= j < |bids| :: asks[i].cell.order.id != bids[j].cell.order.id
  {
  }

  lemma FoundOnSide(book: Book, side: OrderSide, k: nat)
    requires DistinctIds(book.asks) && DistinctIds(book.bids) && k < |book.Side(side)|
    requires forall i, j | 0 <= i < |book.asks| && 0 <= j < |book.bids| :: book.asks[i].id != book.bids[j].id
    ensures var o := book.Side(side)[k]; o.id in BookIds(book) && Find(book, o.id) == Some(o)
  {
    var all, o := book.asks + book.bids, book.Side(side)[k];
    var p := if side == ASK then k else |book.asks| + k;
    assert all[p] == o;
    var i := IndexOf(all, o.id);
    assert i < |book.asks| ==> all[i] == book.asks[i];
    assert |book.asks| <= i < |all| ==> all[i] == book.bids[i - |book.asks|];
  }

  /** The loop goes on exactly as its turns say. */
  lemma MatchGoesOn(c: MarketConf, m: Matched, limit: int)
    requires Match(c, m, limit).Ended? && Trades(c, m, limit)
    ensures Settle(m.funds, TurnUpdates(c, m, limit)).Ok?
    ensures Match(c, m, limit) == Match(c, Advance(c, m, TurnDeal(c, m, limit), Settle(m.funds, TurnUpdates(c, m, limit)).value), limit)
  {
  }

  lemma MatchEnds(c: MarketConf, m: Matched, limit: int, cancel: bool)
    requires Turn(c, m, limit) == if cancel then Verdict.Cancel else Stop
    ensures Match(c, m, limit) == Ended(m, cancel)
  {
  }

  /** The finished makers among those traded with, in order. */
  function FinishedOf(done: seq<Order>): seq<Order>
  {
    if done == [] then []
    else FinishedOf(done[..|done| - 1]) + if done[|done| - 1].remain == 0 then [done[|done| - 1]] else []
  }

  lemma FinishedOfOneMore(done: seq<Order>, done': seq<Order>)
    requires |done'| == |done| + 1 && done'[..|done|] == done
    ensures FinishedOf(done') == FinishedOf(done) + if done'[|done|].remain == 0 then [done'[|done|]] else []
  {
  }

  lemma {:induction false} FinishedOfPrefix(done: seq<Order>)
    requires forall i | 0 <= i < |done| - 1 :: done[i].remain == 0
    ensures FinishedOf(done) == done[..FinishedCount(done)]
    ensures FinishEvents(FinishedOf(done)) == FinishEvents(done)
  {
    if done != [] {
      var front := done[..|done| - 1];
      FinishedOfPrefix(front);
      assert FinishedOf(front) == front;
      if Last(done).remain == 0 {
        assert FinishedOf(done) == done;
      }
    }
  }

  /** The book when finished makers have left it, before the taker rests. */
  function Remaining(b: Book, m: Matched): Book
  {
    b.WithSide(Opposite(m.taker.side), Survivors(m.done) + m.rest).(price := m.price, tradeCount := m.tradeCount)
  }

  lemma RemainingIdsBelow(c: MarketConf, b: Book, m: Matched, id: nat)
    requires IdsBelow(b, id)
    requires Worked(c, Opposite(m.taker.side), b.Side(Opposite(m.taker.side)), m.done, m.rest, id)
    ensures IdsBelow(Remaining(b, m), id)
  {
    var side := Opposite(m.taker.side);
    WorkedLeavesSuffix(c, side, b.Side(side), m.done, m.rest, id);
    SuffixIdsBelow(b.Side(side), Survivors(m.done) + m.rest, id);
  }

  /** From the `i`th on, all ids are among the keys. */
  ghost predicate AllIn(ids: seq<nat>, i: nat, keys: set<nat>)
  {
    forall j | i <= j < |ids| :: ids[j] in keys
  }

  lemma AllInNext(ids: seq<nat>, i: nat, keys: set<nat>)
    requires i < |ids| && Ascending(ids) && AllIn(ids, i, keys)
    ensures ids[i] in keys && AllIn(ids, i + 1, keys - {ids[i]})
  {
  }

  method SortedKeys(keys: set<nat>) returns (ids: seq<nat>)
    ensures Ascending(ids) && forall id :: id in ids <==> id in keys
  {
    var todo := keys;
    ids := [];
    while todo != {}
      invariant todo <= keys && Ascending(ids) && forall id :: id in ids <==> id in keys - todo
      decreases |todo|
    {
      var id := AnyOf(todo);
      SortInAscends(ids, id);
      ids := SortIn(ids, id);
      todo := todo - {id};
    }
  }

  class Market {
    const conf: MarketConf
    var price: int
    var tradeCount: nat
    var orders: map<nat, OrderCell>
    var users: map<Uuid, map<nat, OrderCell>>
    var asks: seq<Entry>
    var bids: seq<Entry>

    ghost function Cells(): set<OrderCell>
      reads this
    {
      CellsOf(asks) + CellsOf(bids)
    }

    ghost function Abs(): Book
      reads this, Cells()
    {
      Book(OrdersOf(asks), OrdersOf(bids), price, tradeCount)
    }

    function Side(side: OrderSide): seq<Entry>
      reads this
    {
      if side == ASK then asks else bids
    }

    ghost predicate Valid()
      reads this, Cells()
    {
      IndexesOk(asks, bids, orders, users)
    }

    /** No order, no trade yet. */
    ghost predicate IsBlank()
      reads this
    {
      asks == [] && bids == [] && orders == map[] && users == map[] && price == 0 && tradeCount == 0
    }

    lemma BlankIsValid()
      requires IsBlank()
      ensures Valid() && Cells() == {} && Abs() == EMPTY_BOOK
    {
    }

    constructor (conf: MarketConf)
      ensures this.conf == conf && IsBlank()
    {
      this.conf := conf;
      price, tradeCount := 0, 0;
      orders, users, asks, bids := map[], map[], [], [];
    }

    /** An order is under its id exactly when it is in the book. */
    lemma IndexedMeansInBook(id: nat)
      requires Valid()
      ensures id in orders <==> id in BookIds(Abs())
      ensures id in orders ==> Find(Abs(), id) == Some(orders[id].order)
    {
      if id in orders {
        IndexedIsFound(id);
      } else {
        FindNone(Abs(), id);
      }
    }

    lemma IndexedIsFound(id: nat)
      requires Valid() && id in orders
      ensures id in BookIds(Abs()) && Find(Abs(), id) == Some(orders[id].order)
    {
      IdsDiffer(asks, bids, orders, users);
      if orders[id] in CellsOf(asks) {
        var k :| 0 <= k < |asks| && asks[k].cell == orders[id];
        FoundOnSide(Abs(), ASK, k);
      } else {
        var k :| 0 <= k < |bids| && bids[k].cell == orders[id];
        FoundOnSide(Abs(), BID, k);
      }
    }

    lemma FindNone(book: Book, id: nat)
      requires Valid() && book == Abs() && id !in orders
      ensures id !in BookIds(book)
    {
      forall i | 0 <= i < |asks|
        ensures book.asks[i].id != id
      {
        assert asks[i].cell in Cells();
      }
      forall i | 0 <= i < |bids|
        ensures book.bids[i].id != id
      {
        assert bids[i].cell in Cells();
      }
    }

    // -------------------------------------------------------------- putting in and taking out

    method Install(asks': seq<Entry>, bids': seq<Entry>, orders': ById, users': ByUser)
      requires IndexesOk(asks', bids', orders', users')
      modifies this
      ensures Valid() && asks == asks' && bids == bids' && orders == orders' && users == users'
      ensures price == old(price) && tradeCount == old(tradeCount)
      ensures OrdersOf(asks) == old(OrdersOf(asks')) && OrdersOf(bids) == old(OrdersOf(bids'))
    {
      asks, bids, orders, users := asks', bids', orders', users';
      assert IndexesOk(asks', bids', orders', users') == old(IndexesOk(asks', bids', orders', users'));
    }

    /** Enters a new cell into all four indexes. */
    method Enter(cell: OrderCell)
      requires Valid() && cell !in Cells() && cell.order.id !in orders
      modifies this
      ensures Valid() && Cells() == old(Cells()) + {cell}
      ensures OrdersOf(asks) == if cell.order.side == ASK then Orders.Insert(ASK, old(OrdersOf(asks)), cell.order) else old(OrdersOf(asks))
      ensures OrdersOf(bids) == if cell.order.side == ASK then old(OrdersOf(bids)) else Orders.Insert(BID, old(OrdersOf(bids)), cell.order)
      ensures price == old(price) && tradeCount == old(tradeCount)
    {
      var o, e := cell.order, Entry(KeyOf(cell.order), cell);
      AddedToIndexes(asks, bids, orders, users, cell);
      if o.side == ASK {
        Install(InsertEntry(ASK, asks, e), bids, orders[o.id := cell], AddToUsers(users, o, cell));
      } else {
        Install(asks, InsertEntry(BID, bids, e), orders[o.id := cell], AddToUsers(users, o, cell));
      }
    }

    /** Rests an order: sets its backing and enters it into all four indexes. */
    method InsertOrder(order: Order) returns (r: Order)
      requires Valid() && order.id !in orders
      modifies this
      ensures Valid() && fresh(Cells() - old(Cells()))
      ensures r == WithBacking(conf, order)
      ensures Abs() == old(Abs()).WithSide(order.side, Orders.Insert(order.side, old(Abs()).Side(order.side), r))
    {
      r := order.(frozen := if order.IsAsk() then order.remain * conf.lot else order.remain * order.price);
      var cell := new OrderCell(r);
      Enter(cell);
    }
  
    method Leave(cell: OrderCell)
      requires Valid() && cell in Cells()
      modifies this
      ensures Valid() && Cells() == old(Cells()) - {cell} && orders == old(orders) - {cell.order.id}
      ensures OrdersOf(asks) == if cell.order.side == ASK then Without(old(OrdersOf(asks)), cell.order.id) else old(OrdersOf(asks))
      ensures OrdersOf(bids) == if cell.order.side == BID then Without(old(OrdersOf(bids)), cell.order.id) else old(OrdersOf(bids))
      ensures price == old(price) && tradeCount == old(tradeCount)
    {
      var o := cell.order;
      RemovedFromIndexes(asks, bids, orders, users, cell);
      Install(SideWithout(ASK, asks, o), SideWithout(BID, bids, o), orders - {o.id}, RemoveFromUsers(users, o));
    }

    /** Gives back what a finished order still has frozen, and says that it is finished. */
    method ReleaseAndTell(bm: BalanceManager, persistor: Persistor, o: Order)
      modifies bm, persistor
      ensures bm.balances == if o.remain == 0 then old(bm.balances)
                             else Ledger.Unfrozen(old(bm.balances), o.user, PayAsset(conf, o.side), o.frozen)
      ensures persistor.events == old(persistor.Told([OrderEvent(o, FINISH)]))
    {
      if o.remain != 0 {
        bm.Unfrozen(o.user, PayAsset(conf, o.side), o.frozen);
      }
      persistor.Put(OrderEvent(o, FINISH));
    }

    method RemoveOrder(o: Order)
      requires Valid() && o.id in orders && orders[o.id].order == o
      modifies this
      ensures Valid() && Cells() == old(Cells()) - {old(orders)[o.id]} && orders == old(orders) - {o.id}
      ensures Abs() == old(Abs()).WithSide(o.side, Without(old(Abs()).Side(o.side), o.id))
    {
      Leave(orders[o.id]);
    }

    /** Takes an order out of all four indexes, gives back what it still has frozen, and says so. */
    method OrderFinish(bm: BalanceManager, persistor: Persistor, o: Order)
      requires Valid() && o.id in orders && orders[o.id].order == o
      modifies this, bm, persistor
      ensures Valid() && Cells() == old(Cells()) - {old(orders)[o.id]} && orders == old(orders) - {o.id}
      ensures Abs() == Finish(conf, old(Abs()), old(bm.balances), o).0
      ensures bm.balances == Finish(conf, old(Abs()), old(bm.balances), o).1
      ensures persistor.events == old(persistor.Told([OrderEvent(o, FINISH)]))
    {
      ReleaseAndTell(bm, persistor, o);
      assert Abs() == old(Abs());
      RemoveOrder(o);
    }
  
    // -------------------------------------------------------------- matching

    /** The four updates of a trade.  `execute_order` unwraps each result: none may fail. */
    method SettleDeal(bm: BalanceManager, uc: BalanceUpdateController, persistor: Persistor, u: seq<UpdateParams>)
      requires |u| == 4 && forall i | 0 <= i < 4 :: u[i].key.businessType == Trading
      requires Settle(Funds(bm.balances, uc.cache), u).Ok?
      modifies bm, uc, persistor
      ensures Funds(bm.balances, uc.cache) == Settle(old(Funds(bm.balances, uc.cache)), u).value
      ensures persistor.events == old(persistor.events)
    {
      var r1 := uc.UpdateUserBalance(bm, persistor, u[0]);
      assert r1.Ok?;
      var r2 := uc.UpdateUserBalance(bm, persistor, u[1]);
      assert r2.Ok?;
      var r3 := uc.UpdateUserBalance(bm, persistor, u[2]);
      assert r3.Ok?;
      var r4 := uc.UpdateUserBalance(bm, persistor, u[3]);
      assert r4.Ok?;
    }

    /** One trade between the taker and the maker in `cell`, in place. */
    method TradeOnce(sequencer: Sequencer, bm: BalanceManager, uc: BalanceUpdateController, persistor: Persistor,
                     taker: Order, cell: OrderCell, amount: int) returns (taker': Order, d: Deal)
      requires var d := MakeDeal(conf, taker, cell.order, amount);
               Settle(Funds(bm.balances, uc.cache), DealUpdates(conf, taker, cell.order, d, sequencer.tradeId + 1)).Ok?
      modifies cell, bm, uc, persistor, sequencer`tradeId
      ensures d == MakeDeal(conf, taker, old(cell.order), amount)
      ensures taker' == AfterDeal(taker, d) && cell.order == MakerAfterDeal(conf, old(cell.order), d)
      ensures sequencer.tradeId == old(sequencer.tradeId) + 1
      ensures Funds(bm.balances, uc.cache)
           == Settle(old(Funds(bm.balances, uc.cache)), DealUpdates(conf, taker, old(cell.order), d, sequencer.tradeId)).value
      ensures persistor.events == old(persistor.Told(
                DealEvents(conf, sequencer.tradeId + 1, taker, cell.order, MakeDeal(conf, taker, cell.order, amount))))
    {
      var maker := cell.order;
      d := MakeDeal(conf, taker, maker, amount);
      var tradeId := sequencer.NextTradeId();
      var trade := MakeTrade(conf, tradeId, taker, maker, d);
      taker' := AfterDeal(taker, d);
      SettleDeal(bm, uc, persistor, DealUpdates(conf, taker, maker, d, tradeId));
      persistor.Put(TradeEvent(trade, conf.base, conf.quote));
      cell.order := MakerAfterDeal(conf, maker, d);
      if cell.order.remain != 0 {
        persistor.Put(OrderEvent(cell.order, UPDATE));
      }
    }
  
    ghost function VenueNow(sequencer: Sequencer, bm: BalanceManager, uc: BalanceUpdateController): Venue
      reads this, Cells(), sequencer, bm, uc
    {
      Venue(Abs(), Funds(bm.balances, uc.cache), Counters(sequencer.orderId, sequencer.tradeId, sequencer.operationLogId))
    }

    /** The objects are in the loop state `m`, `i` makers of `counter` into it. */
    ghost predicate InStep(sequencer: Sequencer, bm: BalanceManager, uc: BalanceUpdateController, m: Matched,
                           counter: seq<Entry>, i: nat)
      reads this, CellsOf(counter), sequencer, bm, uc
    {
      && i <= |counter| && m.done == OrdersOf(counter)[..i] && m.rest == OrdersOf(counter)[i..]
      && m.funds == Funds(bm.balances, uc.cache) && m.tradeId == sequencer.tradeId
      && m.price == price && m.tradeCount == tradeCount
    }

    /** Advancing moves the maker, changed, to those done with. */
    lemma AdvanceMoves(was: seq<Order>, i: nat, m: Matched, d: Deal, funds: Funds)
      requires i < |was| && m.done == was[..i] && m.rest == was[i..]
      ensures var m', now := Advance(conf, m, d, funds), was[i := MakerAfterDeal(conf, was[i], d)];
              m'.done == now[..i + 1] && m'.rest == now[i + 1..]
    {
      var now := was[i := MakerAfterDeal(conf, was[i], d)];
      assert now[..i + 1] == was[..i] + [now[i]];
      assert now[i + 1..] == was[i..][1..];
    }

    /** One turn that trades, on the objects. */
    method TradeTurn(sequencer: Sequencer, bm: BalanceManager, uc: BalanceUpdateController, persistor: Persistor,
                     counter: seq<Entry>, i: nat, taker: Order, amount: int, limit: int, ghost m: Matched)
      returns (taker': Order, d: Deal, ghost m': Matched)
      requires InStep(sequencer, bm, uc, m, counter, i) && i < |counter| && m.taker == taker
      requires forall j | 0 <= j < |counter| && j != i :: counter[j].cell != counter[i].cell
      requires amount == DealAmount(taker, m.rest[0], m.quoteSum, limit) && Settle(m.funds, TurnUpdates(conf, m, limit)).Ok?
      modifies counter[i].cell, bm, uc, persistor, sequencer`tradeId, this`price, this`tradeCount
      ensures d == TurnDeal(conf, m, limit) && m' == Advance(conf, m, d, Settle(m.funds, TurnUpdates(conf, m, limit)).value)
      ensures InStep(sequencer, bm, uc, m', counter, i + 1) && m'.taker == taker'
      ensures persistor.events == old(persistor.Told(DealEvents(conf, m.tradeId + 1, m.taker, m.rest[0], d)))
    {
      var cell := counter[i].cell;
      ghost var was := OrdersOf(counter);
      assert m.rest[0] == was[i] == cell.order;
      price, tradeCount := cell.order.price, tradeCount + 1;
      taker', d := TradeOnce(sequencer, bm, uc, persistor, taker, cell, amount);
      m' := Advance(conf, m, d, Settle(m.funds, TurnUpdates(conf, m, limit)).value);
      assert OrdersOf(counter) == was[i := cell.order];
      AdvanceMoves(was, i, m, d, m'.funds);
    }
  
    /** One turn of the loop: stop, stop and cancel the taker, or trade with maker `i`. */
    method TurnOnce(sequencer: Sequencer, bm: BalanceManager, uc: BalanceUpdateController, persistor: Persistor,
                    counter: seq<Entry>, i: nat, taker: Order, quoteSum: int, limit: int, ghost m: Matched)
      returns (choice: Choice, taker': Order, quoteSum': int, ghost m': Matched, ghost told: seq<Event>)
      requires InStep(sequencer, bm, uc, m, counter, i) && i < |counter| && m.taker == taker && m.quoteSum == quoteSum
      requires forall j | 0 <= j < |counter| && j != i :: counter[j].cell != counter[i].cell
      requires Match(conf, m, limit).Ended?
      modifies counter[i].cell, bm, uc, persistor, sequencer`tradeId, this`price, this`tradeCount
      ensures !choice.TradeHere? ==>
                m' == m && taker' == taker && InStep(sequencer, bm, uc, m, counter, i) && Match(conf, m, limit) == Ended(m, choice.CancelHere?)
      ensures choice.TradeHere? ==>
                && InStep(sequencer, bm, uc, m', counter, i + 1) && m'.taker == taker' && m'.quoteSum == quoteSum'
                && Match(conf, m', limit) == Match(conf, m, limit)
                && |m'.done| == |m.done| + 1 && m'.done[..|m.done|] == m.done
      ensures m'.events == m.events + told && persistor.events == old(persistor.Told(told))
    {
      var maker := counter[i].cell.order;
      assert m.rest[0] == maker;
      choice := Choose(conf, taker, maker, quoteSum, limit);
      taker', quoteSum', m', told := taker, quoteSum, m, [];
      if choice.TradeHere? {
        MatchGoesOn(conf, m, limit);
        var d;
        taker', d, m' := TradeTurn(sequencer, bm, uc, persistor, counter, i, taker, choice.amount, limit, m);
        told := DealEvents(conf, m.tradeId + 1, taker, maker, d);
        quoteSum' := quoteSum + d.quote;
      } else {
        MatchEnds(conf, m, limit, choice.CancelHere?);
      }
    }

    /** The matching loop, maker by maker, each changed in its shared cell. */
    method MatchOrders(sequencer: Sequencer, bm: BalanceManager, uc: BalanceUpdateController, persistor: Persistor,
                       counter: seq<Entry>, taker0: Order, limit: int, ghost start: Matched)
      returns (taker: Order, finished: seq<Order>, needCancel: bool, ghost m: Matched, ghost told: seq<Event>)
      requires InStep(sequencer, bm, uc, start, counter, 0) && start.taker == taker0 && start.quoteSum == 0
      requires OwnCells(counter)
      requires Match(conf, start, limit).Ended?
      modifies CellsOf(counter), bm, uc, persistor, sequencer`tradeId, this`price, this`tradeCount
      ensures Match(conf, start, limit) == Ended(m, needCancel)
      ensures InStep(sequencer, bm, uc, m, counter, |m.done|) && taker == m.taker && finished == FinishedOf(m.done)
      ensures m.events == start.events + told && persistor.events == old(persistor.Told(told))
    {
      taker, finished, needCancel, m, told := taker0, [], false, start, [];
      var quoteSum, i := 0, 0;
      while i < |counter|
        invariant 0 <= i <= |counter| && InStep(sequencer, bm, uc, m, counter, i) && m.taker == taker && m.quoteSum == quoteSum
        invariant Match(conf, m, limit) == Match(conf, start, limit) && !needCancel
        invariant finished == FinishedOf(m.done)
        invariant m.events == start.events + told && persistor.events == old(persistor.Told(told))
      {
        var choice;
        ghost var next, more;
        choice, taker, quoteSum, next, more := TurnOnce(sequencer, bm, uc, persistor, counter, i, taker, quoteSum, limit, m);
        if !choice.TradeHere? {
          needCancel := choice.CancelHere?;
          return;
        }
        FinishedOfOneMore(m.done, next.done);
        assert next.done[|m.done|] == counter[i].cell.order;
        if counter[i].cell.order.remain == 0 {
          finished := finished + [counter[i].cell.order];
        }
        Regroup(start.events, told, more);
        Regroup(old(persistor.events), told, more);
        told, m := told + more, next;
        i := i + 1;
      }
      MatchEnds(conf, m, limit, false);
    }

    lemma StepIsWhole(sequencer: Sequencer, bm: BalanceManager, uc: BalanceUpdateController, m: Matched, counter: seq<Entry>)
      requires InStep(sequencer, bm, uc, m, counter, |m.done|)
      ensures OrdersOf(counter) == m.done + m.rest
    {
      assert OrdersOf(counter)[..|m.done|] + OrdersOf(counter)[|m.done|..] == OrdersOf(counter);
    }

    /** Changing what trades change in an order leaves every index as it was. */
    twostate lemma IndexesStay()
      requires old(Valid()) && asks == old(asks) && bids == old(bids) && orders == old(orders) && users == old(users)
      requires forall c | c in Cells() :: SameOrder(old(c.order), c.order)
      ensures Valid()
    {
      assert forall i | 0 <= i < |asks| :: asks[i].cell in CellsOf(asks);
      assert forall i | 0 <= i < |bids| :: bids[i].cell in CellsOf(bids);
    }

    /** Matching changes nothing of a cell that any index depends on. */
    twostate lemma MatchingKeepsIndexes(new side: OrderSide, new id: nat, new m: Matched)
      requires old(Valid()) && asks == old(asks) && bids == old(bids) && orders == old(orders) && users == old(users)
      requires Worked(conf, side, old(OrdersOf(Side(side))), m.done, m.rest, id) && OrdersOf(Side(side)) == m.done + m.rest
      requires forall c | c in Cells() && c !in CellsOf(Side(side)) :: c.order == old(c.order)
      ensures Valid()
    {
      var counter := Side(side);
      forall c | c in CellsOf(counter)
        ensures SameOrder(old(c.order), c.order)
      {
        var i :| 0 <= i < |counter| && counter[i].cell == c;
        assert SameOrder(old(OrdersOf(counter))[i], (m.done + m.rest)[i]);
      }
      IndexesStay();
    }

    lemma ReadyMatches(v: Venue, taker: Order, limit: int)
      requires Ready(conf, v, taker, limit)
      ensures var side := Opposite(taker.side);
              var start := Start(taker, v.book.Side(side), v);
              && Match(conf, start, limit).Ended?
              && var m := Match(conf, start, limit).s;
                 && Worked(conf, side, v.book.Side(side), m.done, m.rest, taker.id) && SameOrder(taker, m.taker)
    {
      StartIsLoopOk(conf, v, taker, limit);
      MatchWorks(conf, Start(taker, v.book.Side(Opposite(taker.side)), v), limit, taker.id);
    }

    /** The loop will run to its end, and change of the makers only what trades change. */
    ghost predicate WillWork(start: Matched, limit: int)
    {
      && start.quoteSum == 0 && Match(conf, start, limit).Ended?
      && var m := Match(conf, start, limit).s;
         && Worked(conf, Opposite(start.taker.side), start.rest, m.done, m.rest, start.taker.id)
         && m.taker.side == start.taker.side
    }

    /** The loop is about to start on the objects as they are, and will run to its end. */
    ghost predicate AboutToMatch(sequencer: Sequencer, bm: BalanceManager, uc: BalanceUpdateController, start: Matched, limit: int)
      reads this, Cells(), sequencer, bm, uc
    {
      InStep(sequencer, bm, uc, start, Side(Opposite(start.taker.side)), 0) && WillWork(start, limit)
    }

    /** The loop has run on the objects, and finished makers are still in the book. */
    ghost predicate HasMatched(sequencer: Sequencer, bm: BalanceManager, uc: BalanceUpdateController, book: Book, m: Matched)
      reads this, Cells(), sequencer, bm, uc
    {
      && Abs() == Unfinished(book, m)
      && m.funds == Funds(bm.balances, uc.cache) && m.tradeId == sequencer.tradeId
    }

    /** The other side's cells are not the loop's. */
    twostate lemma OtherSideStays(new side: OrderSide)
      requires old(Valid()) && asks == old(asks) && bids == old(bids)
      requires forall c | c in Cells() && c !in CellsOf(Side(side)) :: c.order == old(c.order)
      ensures OrdersOf(Side(Opposite(side))) == old(OrdersOf(Side(Opposite(side))))
    {
      var other := Side(Opposite(side));
      assert forall i | 0 <= i < |other| :: other[i].cell in CellsOf(other);
    }

    lemma SideOwnsCells(side: OrderSide)
      requires Valid()
      ensures OwnCells(Side(side))
    {
      KeyedOwnCells(side, Side(side));
    }

    /** All that differs from before is in the cells of one side, and in the price and trade count. */
    twostate predicate OnlySide(new counter: seq<Entry>)
      reads this, Cells()
    {
      && asks == old(asks) && bids == old(bids) && orders == old(orders) && users == old(users)
      && forall c | c in Cells() && c !in CellsOf(counter) :: c.order == old(c.order)
    }

    /** What the loop leaves of the indexes and the book. */
    twostate lemma LoopLeaves(new sequencer: Sequencer, new bm: BalanceManager, new uc: BalanceUpdateController,
                              new start: Matched, new limit: int, new m: Matched, new cancel: bool, new counter: seq<Entry>, new book: Book)
      requires old(Valid()) && book == old(Abs()) && counter == old(Side(Opposite(start.taker.side)))
      requires start.rest == old(OrdersOf(counter)) && WillWork(start, limit) && Match(conf, start, limit) == Ended(m, cancel)
      requires OnlySide(counter) && InStep(sequencer, bm, uc, m, counter, |m.done|)
      ensures Valid() && HasMatched(sequencer, bm, uc, book, m)
    {
      var side := Opposite(m.taker.side);
      StepIsWhole(sequencer, bm, uc, m, counter);
      MatchingKeepsIndexes(side, start.taker.id, m);
      OtherSideStays(side);
    }

    /** Runs the matching loop over the counter side; the indexes come out as they went in. */
    method RunLoop(sequencer: Sequencer, bm: BalanceManager, uc: BalanceUpdateController, persistor: Persistor,
                   taker0: Order, limit: int, ghost start: Matched, ghost book: Book)
      returns (taker: Order, finished: seq<Order>, needCancel: bool, ghost m: Matched, ghost told: seq<Event>)
      requires book == Abs()
      requires Valid() && AboutToMatch(sequencer, bm, uc, start, limit) && start.taker == taker0
      modifies CellsOf(Side(Opposite(taker0.side))), bm, uc, persistor, sequencer`tradeId, this`price, this`tradeCount
      ensures Valid() && Match(conf, start, limit) == Ended(m, needCancel)
      ensures HasMatched(sequencer, bm, uc, book, m) && taker == m.taker && finished == FinishedOf(m.done)
      ensures m.events == start.events + told && persistor.events == old(persistor.Told(told))
    {
      var counter := Side(Opposite(taker0.side));
      SideOwnsCells(Opposite(taker0.side));
      taker, finished, needCancel, m, told := MatchOrders(sequencer, bm, uc, persistor, counter, taker0, limit, start);
      LoopLeaves(sequencer, bm, uc, start, limit, m, needCancel, counter, book);
    }

    // -------------------------------------------------------------- after the loop

    lemma CellIsIndexed(cell: OrderCell)
      requires Valid() && cell in Cells()
      ensures cell.order.id in orders && orders[cell.order.id] == cell
    {
    }

    lemma HeadLeaves(side: OrderSide)
      requires Valid() && Side(side) != []
      ensures var s := OrdersOf(Side(side)); Without(s, s[0].id) == s[1..]
    {
      var s := OrdersOf(Side(side));
      assert IndexOf(s, s[0].id) == 0;
    }

    lemma HeadIsIndexed(side: OrderSide)
      requires Valid() && Side(side) != []
      ensures var o := OrdersOf(Side(side))[0];
              && o.side == side && o.id in orders && orders[o.id].order == o && orders[o.id] in Cells()
              && Without(OrdersOf(Side(side)), o.id) == OrdersOf(Side(side))[1..]
    {
      var s := Side(side);
      assert s[0].cell in CellsOf(s);
      CellIsIndexed(s[0].cell);
      HeadLeaves(side);
    }

    method FinishHead(bm: BalanceManager, persistor: Persistor, o: Order, ghost side: OrderSide)
      requires Valid() && Side(side) != [] && o == OrdersOf(Side(side))[0] && o.remain == 0
      modifies this, bm, persistor
      ensures Valid() && Cells() <= old(Cells())
      ensures Abs() == old(Abs()).WithSide(side, old(OrdersOf(Side(side)))[1..])
      ensures bm.balances == old(bm.balances)
      ensures persistor.events == old(persistor.Told([OrderEvent(o, FINISH)]))
    {
      HeadIsIndexed(side);
      OrderFinish(bm, persistor, o);
    }

    lemma NextFinished(was: seq<Order>, finished: seq<Order>, i: nat)
      requires finished <= was && i < |finished| && AllFinished(finished)
      ensures was[i..] != [] && was[i..][0] == finished[i] && was[i..][1..] == was[i + 1..] && finished[i].remain == 0
    {
    }

    method FinishNext(bm: BalanceManager, persistor: Persistor, finished: seq<Order>, i: nat, ghost side: OrderSide,
                      ghost book: Book, ghost was: seq<Order>)
      requires Valid() && finished <= was && i < |finished| && AllFinished(finished) && Abs() == book.WithSide(side, was[i..])
      modifies this, bm, persistor
      ensures Valid() && Cells() <= old(Cells()) && Abs() == book.WithSide(side, was[i + 1..])
      ensures bm.balances == old(bm.balances)
      ensures persistor.events == old(persistor.Told([OrderEvent(finished[i], FINISH)]))
    {
      NextFinished(was, finished, i);
      FinishHead(bm, persistor, finished[i], side);
    }

    /** The makers the loop finished leave the book; nothing is frozen behind them any more. */
    method FinishOrders(bm: BalanceManager, persistor: Persistor, finished: seq<Order>, ghost side: OrderSide, ghost book: Book, ghost left: Book)
      requires Valid() && Abs() == book && AllFinished(finished) && finished <= book.Side(side)
      requires left == book.WithSide(side, book.Side(side)[|finished|..])
      modifies this, bm, persistor
      ensures Valid() && Cells() <= old(Cells())
      ensures Abs() == left && bm.balances == old(bm.balances)
      ensures persistor.events == old(persistor.Told(FinishEvents(finished)))
    {
      var i := 0;
      ghost var was, cells := book.Side(side), Cells();
      while i < |finished|
        invariant 0 <= i <= |finished| && Valid() && Cells() <= cells
        invariant Abs() == book.WithSide(side, was[i..])
        invariant bm.balances == old(bm.balances)
        invariant persistor.events == old(persistor.Told(FinishEvents(finished[..i])))
      {
        FinishNext(bm, persistor, finished, i, side, book, was);
        FinishEventsOneMore(finished, i);
        Regroup(old(persistor.events), FinishEvents(finished[..i]), [OrderEvent(finished[i], FINISH)]);
        i := i + 1;
      }
      AllOf(finished);
    }

    lemma AllOf(finished: seq<Order>)
      ensures finished[..|finished|] == finished
    {
    }

    lemma FinishEventsOneMore(finished: seq<Order>, i: nat)
      requires i < |finished| && AllFinished(finished)
      ensures FinishEvents(finished[..i + 1]) == FinishEvents(finished[..i]) + [OrderEvent(finished[i], FINISH)]
    {
      assert finished[..i + 1][..i] == finished[..i];
    }

    /** The finished makers are the first ones, and what is left of the side is the rest. */
    lemma FinishedArePrefix(side: OrderSide, was: seq<Order>, m: Matched, id: nat)
      requires Worked(conf, side, was, m.done, m.rest, id)
      ensures var finished := FinishedOf(m.done);
              && AllFinished(finished) && finished <= m.done + m.rest
              && (m.done + m.rest)[|finished|..] == Survivors(m.done) + m.rest
              && FinishEvents(finished) == FinishEvents(m.done)
    {
      WorkedLeavesTail(conf, side, was, m.done, m.rest, id);
      FinishedOfPrefix(m.done);
      var n := FinishedCount(m.done);
      assert m.done[..n] == (m.done + m.rest)[..n];
    }

    /** The book while finished makers are still in it. */
    ghost function Unfinished(book: Book, m: Matched): Book
    {
      book.WithSide(Opposite(m.taker.side), m.done + m.rest).(price := m.price, tradeCount := m.tradeCount)
    }

    lemma UnfinishedRemains(book: Book, m: Matched, n: nat)
      requires n <= |m.done + m.rest| && (m.done + m.rest)[n..] == Survivors(m.done) + m.rest
      ensures var side, b := Opposite(m.taker.side), Unfinished(book, m);
              b.Side(side) == m.done + m.rest && b.WithSide(side, b.Side(side)[n..]) == Remaining(book, m)
    {
    }

    /** Taking the finished makers out leaves what remains. */
    lemma LoopFinishes(start: Matched, limit: int, m: Matched, needCancel: bool, book: Book)
      requires WillWork(start, limit) && Match(conf, start, limit) == Ended(m, needCancel)
      ensures var finished, side, b := FinishedOf(m.done), Opposite(m.taker.side), Unfinished(book, m);
              && AllFinished(finished) && finished <= b.Side(side) && FinishEvents(finished) == FinishEvents(m.done)
              && b.WithSide(side, b.Side(side)[|finished|..]) == Remaining(book, m)
    {
      FinishedArePrefix(Opposite(start.taker.side), start.rest, m, start.taker.id);
      UnfinishedRemains(book, m, |FinishedOf(m.done)|);
    }

    ghost predicate CountersOf(sequencer: Sequencer, v: Venue)
      reads sequencer
    {
      sequencer.orderId == v.counters.orderId && sequencer.operationLogId == v.counters.operationLogId
    }

    /** The loop has run, and the makers it finished have left; the taker is not placed yet. */
    ghost predicate Unplaced(sequencer: Sequencer, bm: BalanceManager, uc: BalanceUpdateController, v: Venue, m: Matched)
      reads this, Cells(), sequencer, bm, uc
    {
      && Abs() == Remaining(v.book, m) && m.funds == Funds(bm.balances, uc.cache) && sequencer.tradeId == m.tradeId
      && CountersOf(sequencer, v)
    }

    /** Matches the taker and takes the makers it finished out of the book. */
    method MatchAndFinish(sequencer: Sequencer, bm: BalanceManager, uc: BalanceUpdateController, persistor: Persistor,
                          taker0: Order, limit: int, ghost v: Venue, ghost start: Matched)
      returns (taker: Order, needCancel: bool, ghost m: Matched, ghost told: seq<Event>)
      requires Valid() && v.book == Abs() && CountersOf(sequencer, v)
      requires AboutToMatch(sequencer, bm, uc, start, limit) && start.taker == taker0
      modifies this, Cells(), bm, uc, persistor, sequencer`tradeId
      ensures Valid() && Cells() <= old(Cells()) && Unplaced(sequencer, bm, uc, v, m)
      ensures Match(conf, start, limit) == Ended(m, needCancel) && taker == m.taker
      ensures m.events + FinishEvents(m.done) == start.events + told && persistor.events == old(persistor.Told(told))
    {
      var finished;
      taker, finished, needCancel, m, told := RunLoop(sequencer, bm, uc, persistor, taker0, limit, start, v.book);
      LoopFinishes(start, limit, m, needCancel, v.book);
      FinishOrders(bm, persistor, finished, Opposite(m.taker.side), Unfinished(v.book, m), Remaining(v.book, m));
      Regroup(old(persistor.events), told, FinishEvents(m.done));
      Regroup(start.events, told, FinishEvents(m.done));
      told := told + FinishEvents(m.done);
    }

    /** Rests the taker and freezes its backing. */
    method Rest(bm: BalanceManager, taker: Order) returns (r: Order)
      requires Valid() && taker.id !in orders
      modifies this, bm
      ensures Valid() && fresh(Cells() - old(Cells())) && r == WithBacking(conf, taker)
      ensures Abs() == old(Abs()).WithSide(taker.side, Orders.Insert(taker.side, old(Abs()).Side(taker.side), r))
      ensures bm.balances == Ledger.Frozen(old(bm.balances), r.user, PayAsset(conf, r.side), r.frozen)
    {
      r := InsertOrder(taker);
      bm.Frozen(r.user, PayAsset(conf, r.side), r.frozen);
    }

    /** The market after the taker is placed or ended, given the book and the ledger before. */
    ghost predicate RestedOrEnded(bm: BalanceManager, book: Book, balances: Ledger.Balances, taker: Order, rests: bool, r: Order)
      reads this, Cells(), bm
    {
      if rests then
        && r == WithBacking(conf, taker)
        && Abs() == book.WithSide(taker.side, Orders.Insert(taker.side, book.Side(taker.side), r))
        && bm.balances == Ledger.Frozen(balances, r.user, PayAsset(conf, r.side), r.frozen)
      else r == taker && Abs() == book && bm.balances == balances
    }

    /** The taker rests if it may, and is finished otherwise. */
    method RestOrEnd(bm: BalanceManager, persistor: Persistor, taker: Order, needCancel: bool) returns (rests: bool, r: Order)
      requires Valid() && taker.id !in orders
      modifies this, bm, persistor
      ensures Valid() && fresh(Cells() - old(Cells()))
      ensures rests <==> !needCancel && taker.kind == LIMIT && taker.remain != 0
      ensures RestedOrEnded(bm, old(Abs()), old(bm.balances), taker, rests, r)
      ensures persistor.events == old(persistor.Told(if rests then [] else [OrderEvent(taker, FINISH)]))
    {
      rests := !(needCancel || taker.kind == MARKET || taker.remain == 0);
      if rests {
        r := Rest(bm, taker);
      } else {
        persistor.Put(OrderEvent(taker, FINISH));
        r := taker;
      }
    }

    lemma ReadyIsAboutToMatch(sequencer: Sequencer, bm: BalanceManager, uc: BalanceUpdateController, v: Venue, taker: Order, limit: int)
      requires v == VenueNow(sequencer, bm, uc) && Ready(conf, v, taker, limit)
      ensures AboutToMatch(sequencer, bm, uc, Start(taker, v.book.Side(Opposite(taker.side)), v), limit)
    {
      ReadyMatches(v, taker, limit);
    }

    /** A number larger than every id in the book is not indexed. */
    lemma NewIdIsFree(id: nat)
      requires Valid() && IdsBelow(Abs(), id)
      ensures id !in orders
    {
      if id in orders {
        IndexedIsFound(id);
      }
    }

    lemma ReadyExecutes(v: Venue, taker: Order, limit: int)
      requires Ready(conf, v, taker, limit)
      ensures var r := Match(conf, Start(taker, v.book.Side(Opposite(taker.side)), v), limit);
              && r.Ended? && IdsBelow(Remaining(v.book, r.s), r.s.taker.id)
              && Execute(conf, v, taker, limit) == Some(AfterMatch(conf, v, r.s, r.needCancel))
    {
      ReadyMatches(v, taker, limit);
      RemainingIdsBelow(conf, v.book, Match(conf, Start(taker, v.book.Side(Opposite(taker.side)), v), limit).s, taker.id);
    }

    lemma IsPlaced(sequencer: Sequencer, bm: BalanceManager, uc: BalanceUpdateController, v: Venue, m: Matched,
                   needCancel: bool, rests: bool, r: Order)
      requires RestedOrEnded(bm, Remaining(v.book, m), m.funds.balances, m.taker, rests, r) && rests == Rests(m, needCancel)
      requires uc.cache == m.funds.cache && sequencer.tradeId == m.tradeId && CountersOf(sequencer, v)
      ensures VenueNow(sequencer, bm, uc) == AfterMatch(conf, v, m, needCancel).venue && r == AfterMatch(conf, v, m, needCancel).order
    {
    }

    /** The last step of `execute_order`, after the finished makers have left. */
    method PlaceMatched(sequencer: Sequencer, bm: BalanceManager, uc: BalanceUpdateController, persistor: Persistor,
                        taker: Order, needCancel: bool, ghost v: Venue, ghost m: Matched, ghost placed: Placed, ghost cells: set<OrderCell>)
      returns (r: Order, ghost told: seq<Event>)
      requires Valid() && Cells() <= cells && Unplaced(sequencer, bm, uc, v, m)
      requires IdsBelow(Remaining(v.book, m), m.taker.id) && taker == m.taker && placed == AfterMatch(conf, v, m, needCancel)
      modifies this, bm, persistor
      ensures Valid() && fresh(Cells() - cells)
      ensures VenueNow(sequencer, bm, uc) == placed.venue && r == placed.order
      ensures placed.events == m.events + FinishEvents(m.done) + told && persistor.events == old(persistor.Told(told))
    {
      NewIdIsFree(taker.id);
      var rests;
      rests, r := RestOrEnd(bm, persistor, taker, needCancel);
      IsPlaced(sequencer, bm, uc, v, m, needCancel, rests, r);
      told := if rests then [] else [OrderEvent(taker, FINISH)];
    }

    /** `execute_order` from the loop on. */
    method RunOrder(sequencer: Sequencer, bm: BalanceManager, uc: BalanceUpdateController, persistor: Persistor,
                    taker0: Order, limit: int, ghost v: Venue, ghost start: Matched, ghost placed: Placed, ghost cells: set<OrderCell>)
      returns (r: Order, ghost told: seq<Event>)
      requires Valid() && Cells() <= cells && v.book == Abs() && CountersOf(sequencer, v)
      requires AboutToMatch(sequencer, bm, uc, start, limit) && start.taker == taker0
      requires var end := Match(conf, start, limit);
               IdsBelow(Remaining(v.book, end.s), end.s.taker.id) && placed == AfterMatch(conf, v, end.s, end.needCancel)
      modifies this, Cells(), bm, uc, persistor, sequencer`tradeId
      ensures Valid() && fresh(Cells() - cells)
      ensures VenueNow(sequencer, bm, uc) == placed.venue && r == placed.order
      ensures placed.events == start.events + told && persistor.events == old(persistor.Told(told))
    {
      var taker, cancel;
      ghost var m, first, last;
      taker, cancel, m, first := MatchAndFinish(sequencer, bm, uc, persistor, taker0, limit, v, start);
      r, last := PlaceMatched(sequencer, bm, uc, persistor, taker, cancel, v, m, placed, cells);
      Regroup(old(persistor.events), first, last);
      Regroup(start.events, first, last);
      told := first + last;
    }

    /** `execute_order`: what it leaves behind and says is what `Execute` computes. */
    method ExecuteOrder(sequencer: Sequencer, bm: BalanceManager, uc: BalanceUpdateController, persistor: Persistor,
                        taker: Order, limit: int, ghost v: Venue) returns (r: Order)
      requires Valid() && v == VenueNow(sequencer, bm, uc) && Ready(conf, v, taker, limit)
      modifies this, Cells(), bm, uc, persistor, sequencer`tradeId
      ensures Valid() && fresh(Cells() - old(Cells()))
      ensures Execute(conf, v, taker, limit).Some?
      ensures var placed := Execute(conf, v, taker, limit).value;
              && VenueNow(sequencer, bm, uc) == placed.venue && r == placed.order
              && persistor.events == old(persistor.Told(placed.events))
    {
      ghost var cells, start := Cells(), Start(taker, v.book.Side(Opposite(taker.side)), v);
      ReadyExecutes(v, taker, limit);
      persistor.Put(OrderEvent(taker, PUT));
      ReadyIsAboutToMatch(sequencer, bm, uc, v, taker, limit);
      ghost var told;
      r, told := RunOrder(sequencer, bm, uc, persistor, taker, limit, v, start, Execute(conf, v, taker, limit).value, cells);
      Regroup(old(persistor.events), start.events, told);
    }

    // -------------------------------------------------------------- the operations

    /** The checks of `put_order`, one after the other. */
    method Check(sequencer: Sequencer, bm: BalanceManager, uc: BalanceUpdateController, input: OrderInput, user: Uuid)
      returns (e: Option<PutError>)
      ensures e == Refusal(conf, VenueNow(sequencer, bm, uc), input, user)
    {
      if input.kind == MARKET && conf.disableMarketOrder { return Some(MarketOrdersDisabled); }
      if input.amount < conf.minAmount { return Some(InvalidAmount); }
      if conf.feePrec == 0 && (input.takerFee != 0 || input.makerFee != 0) { return Some(FeeNotSupported); }
      if input.amount % conf.amountStep != 0 { return Some(InvalidAmountPrecision); }
      if input.price % conf.priceStep != 0 { return Some(InvalidPricePrecision); }
      if input.kind == MARKET {
        if input.price != 0 { return Some(MarketOrderWithPrice); }
        if input.postOnly { return Some(MarketOrderPostOnly); }
        if Side(Opposite(input.side)) == [] { return Some(NoCounterOrders); }
      } else if input.price == 0 {
        return Some(InvalidPrice);
      }
      var amount := input.amount / conf.amountStep;
      if input.side == ASK {
        if bm.GetByKey(BalanceKey(user, AVAILABLE, conf.base)) < amount * conf.lot { return Some(NotEnough); }
      } else {
        var balance := bm.GetByKey(BalanceKey(user, AVAILABLE, conf.quote));
        if input.kind == LIMIT && balance < amount * (input.price / conf.priceStep * conf.tick) { return Some(NotEnough); }
      }
      return None;
    }

    method LimitOf(sequencer: Sequencer, bm: BalanceManager, uc: BalanceUpdateController, input: OrderInput, user: Uuid)
      returns (limit: int)
      ensures limit == QuoteLimit(conf, VenueNow(sequencer, bm, uc), input, user)
    {
      limit := 0;
      if input.kind == MARKET && input.side == BID {
        limit := bm.GetByKey(BalanceKey(user, AVAILABLE, conf.quote));
        if input.quoteLimit != 0 {
          limit := Min(limit, input.quoteLimit / conf.quoteStep);
        }
      }
    }

    /** Executes an order under the next id. */
    method ExecuteNext(sequencer: Sequencer, bm: BalanceManager, uc: BalanceUpdateController, persistor: Persistor,
                       input: OrderInput, user: Uuid, limit: int, ghost v: Venue, ghost o: Order) returns (r: Order)
      requires Valid() && v == NextOrderId(VenueNow(sequencer, bm, uc))
      requires o == NewOrder(conf, v.counters.orderId, input, user) && Ready(conf, v, o, limit)
      modifies this, Cells(), bm, uc, persistor, sequencer
      ensures Valid() && fresh(Cells() - old(Cells()))
      ensures Execute(conf, v, o, limit).Some?
      ensures var placed := Execute(conf, v, o, limit).value;
              && VenueNow(sequencer, bm, uc) == placed.venue && r == placed.order
              && persistor.events == old(persistor.Told(placed.events))
    {
      var id := sequencer.NextOrderId();
      r := ExecuteOrder(sequencer, bm, uc, persistor, NewOrder(conf, id, input, user), limit, v);
    }

    /** `put_order`: on a sound venue it never panics, and it does exactly what `PutOrder` says. */
    method PutOrder(sequencer: Sequencer, bm: BalanceManager, uc: BalanceUpdateController, persistor: Persistor,
                    input: OrderInput, user: Uuid, ghost v: Venue) returns (r: Result<Order, PutError>)
      requires Valid() && v == VenueNow(sequencer, bm, uc) && VenueOk(conf, v) && Sensible(input)
      modifies this, Cells(), bm, uc, persistor, sequencer
      ensures Valid() && fresh(Cells() - old(Cells()))
      ensures match Matching.PutOrder(conf, v, input, user)
              case Refused(e) => r == Err(e) && VenueNow(sequencer, bm, uc) == v && persistor.events == old(persistor.events)
              case Crashed => false
              case Accepted(placed) =>
                r == Ok(placed.order) && VenueNow(sequencer, bm, uc) == placed.venue && persistor.events == old(persistor.Told(placed.events))
    {
      var e := Check(sequencer, bm, uc, input, user);
      if e.Some? {
        return Err(e.value);
      }
      AdmittedIsReady(conf, v, input, user);
      var limit := LimitOf(sequencer, bm, uc, input, user);
      var order := ExecuteNext(sequencer, bm, uc, persistor, input, user, limit, NextOrderId(v), NewOrder(conf, v.counters.orderId + 1, input, user));
      r := Ok(order);
    }
  
    function Get(id: nat): Option<Order>
      requires Valid()
      reads this, Cells()
    {
      if id in orders then Some(orders[id].order) else None
    }

    /** Cancels one open order. */
    method CancelOrder(bm: BalanceManager, persistor: Persistor, id: nat) returns (r: Order)
      requires Valid() && id in orders
      modifies this, bm, persistor
      ensures Valid() && Cells() <= old(Cells()) && orders.Keys == old(orders).Keys - {id}
      ensures Find(old(Abs()), id) == Some(r)
      ensures Abs() == Finish(conf, old(Abs()), old(bm.balances), r).0
      ensures bm.balances == Finish(conf, old(Abs()), old(bm.balances), r).1
      ensures persistor.events == old(persistor.Told([OrderEvent(r, FINISH)]))
    {
      IndexedIsFound(id);
      r := orders[id].order;
      OrderFinish(bm, persistor, r);
    }

    /** The ids of a user's open orders, in the ascending order of the user's map. */
    method IdsOf(user: Uuid) returns (ids: seq<nat>)
      requires Valid()
      ensures ids == IdsOfUser(Abs().asks + Abs().bids, user)
      ensures |ids| == BookCount(Abs(), user) && forall id | id in ids :: id in orders
    {
      var mine: ById := if user in users then users[user] else map[];
      ids := SortedKeys(mine.Keys);
      UsersMapIsBook(user, ids);
    }

    /** What a user's map holds is in the book, and under its id. */
    lemma UsersMapInBook(user: Uuid, id: nat)
      requires Valid() && user in users && id in users[user]
      ensures IsOfUser(OrdersOf(asks), user, id) || IsOfUser(OrdersOf(bids), user, id)
      ensures id in orders
    {
      var cell := users[user][id];
      if cell in CellsOf(asks) {
        var k :| 0 <= k < |asks| && asks[k].cell == cell;
        assert OrdersOf(asks)[k] == cell.order;
      } else {
        var k :| 0 <= k < |bids| && bids[k].cell == cell;
        assert OrdersOf(bids)[k] == cell.order;
      }
    }

    /** What is in the book is in its user's map. */
    lemma BookInUsersMap(user: Uuid, id: nat)
      requires Valid() && (IsOfUser(OrdersOf(asks), user, id) || IsOfUser(OrdersOf(bids), user, id))
      ensures user in users && id in users[user]
    {
      if IsOfUser(OrdersOf(asks), user, id) {
        var i :| 0 <= i < |asks| && OrdersOf(asks)[i].user == user && OrdersOf(asks)[i].id == id;
        assert asks[i].cell in Cells();
      } else {
        var i :| 0 <= i < |bids| && OrdersOf(bids)[i].user == user && OrdersOf(bids)[i].id == id;
        assert bids[i].cell in Cells();
      }
    }

    lemma AllIdsDiffer()
      requires Valid()
      ensures DistinctIds(Abs().asks + Abs().bids)
    {
      IdsDiffer(asks, bids, orders, users);
    }

    lemma UsersMapIsBook(user: Uuid, ids: seq<nat>)
      requires Valid() && Ascending(ids)
      requires forall id :: id in ids <==> user in users && id in users[user]
      ensures ids == IdsOfUser(Abs().asks + Abs().bids, user)
      ensures |ids| == BookCount(Abs(), user) && forall id | id in ids :: id in orders
    {
      var all := Abs().asks + Abs().bids;
      AllIdsDiffer();
      IdsOfUserAscend(all, user);
      FrozenOfConcat(Abs().asks, Abs().bids, user);
      forall id
        ensures id in ids <==> IsOfUser(all, user, id)
        ensures id in ids ==> id in orders
      {
        OfUserInParts(Abs().asks, Abs().bids, user, id);
        if id in ids {
          UsersMapInBook(user, id);
        }
        if IsOfUser(all, user, id) {
          BookInUsersMap(user, id);
        }
      }
      AscendingIsUnique(ids, IdsOfUser(all, user));
    }

    method CancelNext(bm: BalanceManager, persistor: Persistor, ids: seq<nat>, i: nat, ghost told: seq<Event>,
                      ghost all: (Book, Ledger.Balances, seq<Event>)) returns (ghost more: seq<Event>)
      requires Valid() && i < |ids| && Ascending(ids) && AllIn(ids, i, orders.Keys)
      requires AllThat(all, told, FinishAll(conf, Abs(), bm.balances, ids[i..]))
      modifies this, bm, persistor
      ensures Valid() && Cells() <= old(Cells()) && AllIn(ids, i + 1, orders.Keys)
      ensures AllThat(all, told + more, FinishAll(conf, Abs(), bm.balances, ids[i + 1..]))
      ensures persistor.events == old(persistor.Told(more))
    {
      ghost var book, balances := Abs(), bm.balances;
      AllInNext(ids, i, orders.Keys);
      var o := CancelOrder(bm, persistor, ids[i]);
      FinishAllGoesOn(book, balances, ids, i, o, all, told);
      more := [OrderEvent(o, FINISH)];
    }

    lemma AllBefore(book: Book, balances: Ledger.Balances, ids: seq<nat>)
      ensures AllThat(FinishAll(conf, book, balances, ids), [], FinishAll(conf, book, balances, ids[0..]))
    {
      var all := FinishAll(conf, book, balances, ids);
      assert ids[0..] == ids;
      assert [] + all.2 == all.2;
    }

    method CancelEach(bm: BalanceManager, persistor: Persistor, ids: seq<nat>, ghost all: (Book, Ledger.Balances, seq<Event>))
      requires Valid() && Ascending(ids) && AllIn(ids, 0, orders.Keys)
      requires all == FinishAll(conf, Abs(), bm.balances, ids)
      modifies this, bm, persistor
      ensures Valid() && Cells() <= old(Cells()) && (Abs(), bm.balances) == (all.0, all.1)
      ensures persistor.events == old(persistor.Told(all.2))
    {
      ghost var told: seq<Event>, more: seq<Event> := [], [];
      var i := 0;
      AllBefore(Abs(), bm.balances, ids);
      ghost var cells := Cells();
      while i < |ids|
        invariant 0 <= i <= |ids| && Valid() && Cells() <= cells
        invariant AllIn(ids, i, orders.Keys)
        invariant AllThat(all, told, FinishAll(conf, Abs(), bm.balances, ids[i..]))
        invariant persistor.events == old(persistor.Told(told))
      {
        more := CancelNext(bm, persistor, ids, i, told, all);
        Regroup(old(persistor.events), told, more);
        told := told + more;
        i := i + 1;
      }
      AllDone(Abs(), bm.balances, ids, all, told);
    }

    lemma AllDone(book: Book, balances: Ledger.Balances, ids: seq<nat>, all: (Book, Ledger.Balances, seq<Event>), told: seq<Event>)
      requires AllThat(all, told, FinishAll(conf, book, balances, ids[|ids|..]))
      ensures all == (book, balances, told)
    {
      assert told + [] == told;
    }

    /** Cancels all of a user's orders, the oldest first. */
    method CancelAllForUser(bm: BalanceManager, persistor: Persistor, user: Uuid) returns (total: nat)
      requires Valid()
      modifies this, bm, persistor
      ensures Valid() && Cells() <= old(Cells()) && total == BookCount(old(Abs()), user)
      ensures var all := FinishAll(conf, old(Abs()), old(bm.balances), IdsOfUser(old(Abs().asks + Abs().bids), user));
              && Abs() == all.0 && bm.balances == all.1
      ensures persistor.events == old(persistor.Told(FinishAll(conf, Abs(), bm.balances, IdsOfUser(Abs().asks + Abs().bids, user)).2))
    {
      var ids := IdsOf(user);
      total := |ids|;
      AscendIfOfUser(user);
      CancelEach(bm, persistor, ids, FinishAll(conf, Abs(), bm.balances, ids));
    }

    lemma AscendIfOfUser(user: Uuid)
      requires Valid()
      ensures Ascending(IdsOfUser(Abs().asks + Abs().bids, user))
    {
      IdsDiffer(asks, bids, orders, users);
      IdsOfUserAscend(Abs().asks + Abs().bids, user);
    }

    /** `all` is what `rest` is, after `told` was told already. */
    ghost predicate AllThat(all: (Book, Ledger.Balances, seq<Event>), told: seq<Event>, rest: (Book, Ledger.Balances, seq<Event>))
    {
      all == (rest.0, rest.1, told + rest.2)
    }

    lemma FinishAllGoesOn(book: Book, balances: Ledger.Balances, ids: seq<nat>, i: nat, o: Order,
                          all: (Book, Ledger.Balances, seq<Event>), told: seq<Event>)
      requires i < |ids| && Find(book, ids[i]) == Some(o)
      requires AllThat(all, told, FinishAll(conf, book, balances, ids[i..]))
      ensures var (book', balances') := Finish(conf, book, balances, o);
              AllThat(all, told + [OrderEvent(o, FINISH)], FinishAll(conf, book', balances', ids[i + 1..]))
    {
      var (book', balances') := Finish(conf, book, balances, o);
      assert ids[i..][1..] == ids[i + 1..];
      Regroup(told, [OrderEvent(o, FINISH)], FinishAll(conf, book', balances', ids[i + 1..]).2);
    }

    method GetOrderNumOfUser(user: Uuid) returns (n: nat)
      requires Valid()
      ensures n == BookCount(Abs(), user)
    {
      var ids := IdsOf(user);
      n := |ids|;
    }
  }
}
