/** Cancelling: whose orders a cancellation takes out, that it takes out no other, and where the funds
    set aside for them go. */
module Cancellation {
  import opened Types
  import opened Orders
  import opened Ledger
  import opened Matching
  import opened MatchLoop
  import opened BookInvariant
  import opened VenueInvariant
  import opened Exchange
  import opened ExchangeInvariant
  import opened Holdings

  /** Just the orders that had these ids are gone, and nothing else of the book has changed. */
  ghost predicate OnlyGone(b: Book, b': Book, ids: seq<nat>)
  {
    && b'.price == b.price && b'.tradeCount == b.tradeCount
    && (forall o :: o in b'.asks <==> o in b.asks && o.id !in ids)
    && (forall o :: o in b'.bids <==> o in b.bids && o.id !in ids)
  }

  /** What `b` has frozen for each user and `b'` no longer has is free again. */
  ghost predicate Returned(c: MarketConf, b: Book, f: Balances, b': Book, f': Balances)
  {
    forall user, a ::
      && Get(f', BalanceKey(user, AVAILABLE, a)) == Get(f, BalanceKey(user, AVAILABLE, a)) + (BookFrozen(c, b, user, a) - BookFrozen(c, b', user, a))
      && Get(f', BalanceKey(user, FREEZE, a)) == Get(f, BalanceKey(user, FREEZE, a)) - (BookFrozen(c, b, user, a) - BookFrozen(c, b', user, a))
  }

  lemma FinishAllReturns(c: MarketConf, v: Venue, ids: seq<nat>)
    requires VenueOk(c, v)
    ensures var r := FinishAll(c, v.book, v.funds.balances, ids); Returned(c, v.book, v.funds.balances, r.0, r.1)
  {
    var r := FinishAll(c, v.book, v.funds.balances, ids);
    FinishAllIsSafe(c, v, ids);
    forall user, a
      ensures Get(r.1, BalanceKey(user, AVAILABLE, a)) - Get(v.funds.balances, BalanceKey(user, AVAILABLE, a))
           == BookFrozen(c, v.book, user, a) - BookFrozen(c, r.0, user, a)
      ensures Get(r.1, BalanceKey(user, FREEZE, a)) - Get(v.funds.balances, BalanceKey(user, FREEZE, a))
           == BookFrozen(c, r.0, user, a) - BookFrozen(c, v.book, user, a)
    {
      FinishAllMovesNothing(c, v.book, v.funds.balances, ids, user, a);
    }
  }

  /** The order under an id, and that no other order has it. */
  ghost predicate IsAt(b: Book, o: Order)
  {
    && (if o.side == ASK then o in b.asks else o in b.bids)
    && (forall p | p in b.asks && p.id == o.id :: p == o)
    && (forall p | p in b.bids && p.id == o.id :: p == o)
  }

  lemma OnlyOneAt(c: MarketConf, v: Venue, side: OrderSide, i: nat)
    requires VenueOk(c, v) && i < |v.book.Side(side)|
    ensures IsAt(v.book, v.book.Side(side)[i])
  {
    assert Working(c, side, v.book.Side(side)[i], v.counters.orderId);
  }

  lemma FoundIsAt(c: MarketConf, v: Venue, id: nat)
    requires VenueOk(c, v) && Find(v.book, id).Some?
    ensures Find(v.book, id).value.id == id && IsAt(v.book, Find(v.book, id).value)
  {
    FindLocates(v.book, id);
    var o := Find(v.book, id).value;
    if i :| 0 <= i < |v.book.asks| && v.book.asks[i] == o {
      OnlyOneAt(c, v, ASK, i);
    } else {
      var i :| 0 <= i < |v.book.bids| && v.book.bids[i] == o;
      OnlyOneAt(c, v, BID, i);
    }
  }

  lemma IsBacked(c: MarketConf, v: Venue, o: Order)
    requires VenueOk(c, v) && IsAt(v.book, o)
    ensures 0 < o.remain && o.frozen == o.remain * if o.side == ASK then c.lot else o.price
  {
    var s := v.book.Side(o.side);
    var i :| 0 <= i < |s| && s[i] == o;
    assert Working(c, o.side, s[i], v.counters.orderId);
  }

  lemma WithoutOne(s: seq<Order>, o: Order)
    requires DistinctIds(s) && o in s
    ensures forall x :: x in Without(s, o.id) <==> x in s && x.id !in [o.id]
  {
    var i :| 0 <= i < |s| && s[i] == o;
    WithoutSplits(s, o.id, i);
  }

  lemma FinishTakesOne(c: MarketConf, v: Venue, o: Order)
    requires VenueOk(c, v) && IsAt(v.book, o)
    ensures var r := Finish(c, v.book, v.funds.balances, o);
            && OnlyGone(v.book, r.0, [o.id])
            && r.1 == Unfrozen(v.funds.balances, o.user, if o.side == ASK then c.base else c.quote, o.frozen)
  {
    IsBacked(c, v, o);
    var r := Finish(c, v.book, v.funds.balances, o);
    if o.side == ASK {
      WithoutOne(v.book.asks, o);
      assert r.0.bids == v.book.bids && o !in v.book.bids by { SidesDiffer(c, v, o); }
    } else {
      WithoutOne(v.book.bids, o);
      assert r.0.asks == v.book.asks && o !in v.book.asks by { SidesDiffer(c, v, o); }
    }
  }

  lemma SidesDiffer(c: MarketConf, v: Venue, o: Order)
    requires VenueOk(c, v)
    ensures o in v.book.asks ==> o.side == ASK
    ensures o in v.book.bids ==> o.side == BID
  {
    if i :| 0 <= i < |v.book.asks| && v.book.asks[i] == o {
      assert Working(c, ASK, v.book.asks[i], v.counters.orderId);
    }
    if i :| 0 <= i < |v.book.bids| && v.book.bids[i] == o {
      assert Working(c, BID, v.book.bids[i], v.counters.orderId);
    }
  }

  lemma GoneThenGone(b: Book, b1: Book, b2: Book, id: nat, ids: seq<nat>)
    requires OnlyGone(b, b1, [id]) && OnlyGone(b1, b2, ids)
    ensures OnlyGone(b, b2, [id] + ids)
  {
    assert forall x :: x in [id] + ids <==> x in [id] || x in ids;
  }

  lemma UnknownGone(b: Book, b': Book, id: nat, ids: seq<nat>)
    requires Find(b, id).None? && OnlyGone(b, b', ids)
    ensures OnlyGone(b, b', [id] + ids)
  {
    FindLocates(b, id);
    assert forall x :: x in [id] + ids <==> x in [id] || x in ids;
    assert forall i | 0 <= i < |b.asks| :: b.asks[i].id in BookIds(b);
    assert forall i | 0 <= i < |b.bids| :: b.bids[i].id in BookIds(b);
  }

  /** Finishing the orders with these ids takes out those orders and no other. */
  lemma {:induction false} FinishAllTakesThese(c: MarketConf, v: Venue, ids: seq<nat>)
    requires VenueOk(c, v)
    ensures OnlyGone(v.book, FinishAll(c, v.book, v.funds.balances, ids).0, ids)
    decreases |ids|
  {
    if ids != [] {
      assert ids == [ids[0]] + ids[1..];
      if Find(v.book, ids[0]).Some? {
        var o := Find(v.book, ids[0]).value;
        FoundIsAt(c, v, ids[0]);
        FinishTakesOne(c, v, o);
        FinishFoundIsSafe(c, v, ids[0]);
        var (book1, balances1) := Finish(c, v.book, v.funds.balances, o);
        var v1 := Venue(book1, v.funds.(balances := balances1), v.counters);
        KeepsMeansOk(c, v, v1);
        FinishAllTakesThese(c, v1, ids[1..]);
        GoneThenGone(v.book, book1, FinishAll(c, book1, balances1, ids[1..]).0, ids[0], ids[1..]);
      } else {
        FinishAllTakesThese(c, v, ids[1..]);
        UnknownGone(v.book, FinishAll(c, v.book, v.funds.balances, ids[1..]).0, ids[0], ids[1..]);
      }
    }
  }

  // ---------------------------------------------------------------- one order

  /** The user has an open order of this id in the book. */
  ghost predicate Owns(b: Book, user: Uuid, id: nat)
  {
    IsOfUser(b.asks + b.bids, user, id)
  }

  lemma OwnsMeansFound(c: MarketConf, v: Venue, user: Uuid, id: nat)
    requires VenueOk(c, v)
    ensures Owns(v.book, user, id) <==> Find(v.book, id).Some? && Find(v.book, id).value.user == user
  {
    var all := v.book.asks + v.book.bids;
    var i := IndexOf(all, id);
    if i < |all| {
      assert all[i].user == user ==> IsOfUser(all, user, id);
    }
    if Owns(v.book, user, id) {
      var j :| 0 <= j < |all| && all[j].user == user && all[j].id == id;
      OneOfAnId(c, v, i, j);
    }
  }

  lemma OneOfAnId(c: MarketConf, v: Venue, i: nat, j: nat)
    requires VenueOk(c, v) && i < |v.book.asks + v.book.bids| && j < |v.book.asks + v.book.bids|
    requires (v.book.asks + v.book.bids)[i].id == (v.book.asks + v.book.bids)[j].id
    ensures i == j
  {
  }

  /** This much of the user's frozen balance is free again, and no other balance has changed. */
  ghost predicate Freed(f: Balances, f': Balances, user: Uuid, asset: Asset, amount: int)
  {
    forall k :: Get(f', k) == Get(f, k) + if k == BalanceKey(user, AVAILABLE, asset) then amount
                                          else if k == BalanceKey(user, FREEZE, asset) then -amount else 0
  }

  lemma UnfreezingFrees(f: Balances, user: Uuid, asset: Asset, amount: int)
    ensures Freed(f, Unfrozen(f, user, asset, amount), user, asset, amount)
  {
  }

  lemma FinishAllOfOne(c: MarketConf, b: Book, f: Balances, id: nat)
    requires Find(b, id).Some?
    ensures var r := Finish(c, b, f, Find(b, id).value);
            FinishAll(c, b, f, [id]) == (r.0, r.1, [OrderEvent(Find(b, id).value, FINISH)])
  {
    var r := Finish(c, b, f, Find(b, id).value);
    assert [id][1..] == [];
    assert FinishAll(c, r.0, r.1, [id][1..]) == (r.0, r.1, []);
    var told := [OrderEvent(Find(b, id).value, FINISH)];
    assert told + [] == told;
  }

  /** The user's order `o` is out of this market, what backed it is free again, the persistor is told,
      and nothing else of the exchange has changed. */
  ghost predicate Cancelled(c: MarketConf, e: Exchange, r: Effect, n: MarketName, o: Order)
    requires n in e.books
  {
    && n in r.exchange.books && r.exchange.books == e.books[n := r.exchange.books[n]]
    && IsAt(e.books[n], o) && OnlyGone(e.books[n], r.exchange.books[n], [o.id])
    && r.exchange.counters == e.counters && r.exchange.funds.cache == e.funds.cache
    && r.events == [OrderEvent(o, FINISH)]
    && Freed(e.funds.balances, r.exchange.funds.balances, o.user, if o.side == ASK then c.base else c.quote,
             o.remain * if o.side == ASK then c.lot else o.price)
  }

  lemma FinishInCancels(cfg: Config, e: Exchange, n: MarketName, id: nat)
    requires ExchangeOk(cfg, e) && Listed(cfg, e, n) && Find(e.books[n], id).Some?
    ensures Cancelled(cfg.confs[n], e, FinishIn(cfg, e, n, [id]), n, Find(e.books[n], id).value)
  {
    var c, v, o := cfg.confs[n], VenueOf(e, n), Find(e.books[n], id).value;
    VenueOfIsOk(cfg, e, n);
    FoundIsAt(c, v, id);
    FinishTakesOne(c, v, o);
    IsBacked(c, v, o);
    FinishAllOfOne(c, v.book, v.funds.balances, id);
    UnfreezingFrees(v.funds.balances, o.user, if o.side == ASK then c.base else c.quote, o.frozen);
  }

  /** A cancellation is accepted exactly when the market exists and has an open order of this id of the
      requesting user; it then takes out that order alone, and otherwise changes nothing. */
  lemma CancelServesOwner(cfg: Config, e: Exchange, user: Uuid, n: MarketName, id: nat)
    requires ExchangeOk(cfg, e)
    ensures var r := Exec(cfg, e, user, OrderCancel(n, id));
            && (r.response == Accept <==> Listed(cfg, e, n) && Owns(e.books[n], user, id))
            && (r.response == Accept ==> exists o: Order :: o.id == id && o.user == user && Cancelled(cfg.confs[n], e, r, n, o))
            && (r.response != Accept ==> r == Effect(e, Reject, []))
  {
    if Listed(cfg, e, n) {
      VenueOfIsOk(cfg, e, n);
      OwnsMeansFound(cfg.confs[n], VenueOf(e, n), user, id);
      if Find(e.books[n], id).Some? {
        FindLocates(e.books[n], id);
        FinishInCancels(cfg, e, n, id);
      }
    }
  }

  // ---------------------------------------------------------------- all of a user's orders

  lemma {:induction false} NothingFrozen(s: seq<Order>, user: Uuid)
    requires forall o | o in s :: o.user != user
    ensures FrozenOf(s, user) == 0
  {
    if s != [] {
      assert s[|s| - 1] in s;
      NothingFrozen(s[..|s| - 1], user);
    }
  }

  /** All of a user's orders are out of this market, what backed them is free again, and no order or
      balance of anyone else has changed. */
  ghost predicate AllCancelled(c: MarketConf, e: Exchange, r: Effect, n: MarketName, user: Uuid)
    requires n in e.books
  {
    && n in r.exchange.books && r.exchange.books == e.books[n := r.exchange.books[n]]
    && r.exchange.counters == e.counters && r.exchange.funds.cache == e.funds.cache
    && r.exchange.books[n].price == e.books[n].price && r.exchange.books[n].tradeCount == e.books[n].tradeCount
    && (forall o :: o in r.exchange.books[n].asks <==> o in e.books[n].asks && o.user != user)
    && (forall o :: o in r.exchange.books[n].bids <==> o in e.books[n].bids && o.user != user)
    && (forall k: BalanceKey :: k.user != user ==> Get(r.exchange.funds.balances, k) == Get(e.funds.balances, k))
    && forall a ::
         && Get(r.exchange.funds.balances, BalanceKey(user, AVAILABLE, a))
            == Get(e.funds.balances, BalanceKey(user, AVAILABLE, a)) + BookFrozen(c, e.books[n], user, a)
         && Get(r.exchange.funds.balances, BalanceKey(user, FREEZE, a))
            == Get(e.funds.balances, BalanceKey(user, FREEZE, a)) - BookFrozen(c, e.books[n], user, a)
  }

  /** The ids are not those of another user's orders. */
  ghost predicate IdsAreOf(b: Book, user: Uuid, ids: seq<nat>)
  {
    (forall o | o in b.asks && o.id in ids :: o.user == user) && (forall o | o in b.bids && o.id in ids :: o.user == user)
  }

  lemma {:induction false} OthersUntouched(c: MarketConf, v: Venue, user: Uuid, ids: seq<nat>, k: BalanceKey)
    requires VenueOk(c, v) && IdsAreOf(v.book, user, ids) && k.user != user
    ensures Get(FinishAll(c, v.book, v.funds.balances, ids).1, k) == Get(v.funds.balances, k)
    decreases |ids|
  {
    if ids != [] {
      assert ids == [ids[0]] + ids[1..];
      if Find(v.book, ids[0]).Some? {
        var o := Find(v.book, ids[0]).value;
        FoundIsAt(c, v, ids[0]);
        FinishTakesOne(c, v, o);
        FinishFoundIsSafe(c, v, ids[0]);
        var (book1, balances1) := Finish(c, v.book, v.funds.balances, o);
        var v1 := Venue(book1, v.funds.(balances := balances1), v.counters);
        KeepsMeansOk(c, v, v1);
        OthersUntouched(c, v1, user, ids[1..], k);
      } else {
        OthersUntouched(c, v, user, ids[1..], k);
      }
    }
  }

  lemma UserIdsAreOf(c: MarketConf, v: Venue, user: Uuid)
    requires VenueOk(c, v)
    ensures var ids := IdsOfUser(v.book.asks + v.book.bids, user);
            && IdsAreOf(v.book, user, ids)
            && (forall o | o in v.book.asks || o in v.book.bids :: o.user == user <==> o.id in ids)
  {
    var all := v.book.asks + v.book.bids;
    var ids := IdsOfUser(all, user);
    assert DistinctIds(all);
    IdsOfUserAscend(all, user);
    forall o | o in v.book.asks || o in v.book.bids
      ensures o.user == user <==> o.id in ids
    {
      assert o in all;
      var i :| 0 <= i < |all| && all[i] == o;
      if o.id in ids {
        var j :| 0 <= j < |all| && all[j].user == user && all[j].id == o.id;
        OneOfAnId(c, v, i, j);
      } else {
        assert !IsOfUser(all, user, all[i].id);
      }
    }
  }

  lemma NoneLeft(c: MarketConf, b: Book, b': Book, user: Uuid, ids: seq<nat>)
    requires OnlyGone(b, b', ids) && forall o | o in b.asks || o in b.bids :: o.user == user <==> o.id in ids
    ensures (forall o :: o in b'.asks <==> o in b.asks && o.user != user) && (forall o :: o in b'.bids <==> o in b.bids && o.user != user)
    ensures forall a :: BookFrozen(c, b', user, a) == 0
  {
    NothingFrozen(b'.asks, user);
    NothingFrozen(b'.bids, user);
  }

  /** Cancelling all orders of a user is accepted exactly when the market exists; it then takes out all
      of them there and no one else's. */
  lemma CancelAllServesUser(cfg: Config, e: Exchange, user: Uuid, n: MarketName)
    requires ExchangeOk(cfg, e)
    ensures var r := Exec(cfg, e, user, OrderCancelAll(n));
            && (r.response == Accept <==> Listed(cfg, e, n))
            && (r.response == Accept ==> AllCancelled(cfg.confs[n], e, r, n, user))
            && (r.response != Accept ==> r == Effect(e, Reject, []))
  {
    if Listed(cfg, e, n) {
      var c, v := cfg.confs[n], VenueOf(e, n);
      var ids := IdsOfUser(v.book.asks + v.book.bids, user);
      var b' := FinishAll(c, v.book, v.funds.balances, ids).0;
      VenueOfIsOk(cfg, e, n);
      UserIdsAreOf(c, v, user);
      FinishAllTakesThese(c, v, ids);
      FinishAllReturns(c, v, ids);
      NoneLeft(c, v.book, b', user, ids);
      forall k: BalanceKey | k.user != user
        ensures Get(FinishAll(c, v.book, v.funds.balances, ids).1, k) == Get(v.funds.balances, k)
      {
        OthersUntouched(c, v, user, ids, k);
      }
    }
  }
}
