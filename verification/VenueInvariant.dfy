/** Every operation on one market keeps its invariant: placing an order never crashes, finishing
    one gives back exactly what it had frozen, and neither changes what an asset's holders own. */
module VenueInvariant {
  import opened Types
  import opened Orders
  import opened Ledger
  import opened Matching
  import opened MatchLoop
  import opened BookInvariant

  lemma OkBelowNext(c: MarketConf, b: Book, maxId: nat)
    requires BookOk(c, b, maxId)
    ensures BookOk(c, b, maxId + 1) && IdsBelow(b, maxId + 1)
  {
    assert forall i | 0 <= i < |b.asks| :: Working(c, ASK, b.asks[i], maxId);
    assert forall i | 0 <= i < |b.bids| :: Working(c, BID, b.bids[i], maxId);
  }

  lemma ExactQuotient(x: int, step: Pos)
    requires 0 <= x && x % step == 0
    ensures 0 <= x / step && (x != 0 ==> 0 < x / step)
  {
  }

  lemma NewOrderIsOk(c: MarketConf, v: Venue, input: OrderInput, user: Uuid, id: nat)
    requires 0 <= c.minAmount && Sensible(input) && Refusal(c, v, input, user).None?
    ensures TakerOk(NewOrder(c, id, input, user))
  {
    ExactQuotient(input.amount, c.amountStep);
    ExactQuotient(input.price, c.priceStep);
    if input.kind == LIMIT {
      ProductMonotone(1, input.price / c.priceStep, c.tick);
    }
  }

  /** The checks of `put_order` leave nothing the loop could run out of. */
  lemma AdmittedIsReady(c: MarketConf, v: Venue, input: OrderInput, user: Uuid)
    requires VenueOk(c, v) && Sensible(input) && Refusal(c, v, input, user).None?
    ensures Ready(c, NextOrderId(v), NewOrder(c, v.counters.orderId + 1, input, user), QuoteLimit(c, v, input, user))
  {
    OkBelowNext(c, v.book, v.counters.orderId);
    NewOrderIsOk(c, v, input, user, v.counters.orderId + 1);
    GetNonNegative(v.funds.balances);
    assert 0 <= input.quoteLimit / c.quoteStep;
  }

  ghost predicate KeepsVenue(c: MarketConf, v: Venue, v': Venue)
  {
    && BookOk(c, v'.book, v'.counters.orderId)
    && NoneNegative(v'.funds.balances)
    && v.counters.tradeId <= v'.counters.tradeId
    && v'.counters.operationLogId == v.counters.operationLogId
    && TradeIdsUpTo(v'.funds.cache, v'.counters.tradeId)
    && FrozenMoved(c, v.book, v.funds.balances, v'.book, v'.funds.balances)
    && BookIds(v'.book) <= BookIds(v.book) + {v.counters.orderId + 1}
    && v.counters.orderId <= v'.counters.orderId
  }

  lemma KeepsMeansOk(c: MarketConf, v: Venue, v': Venue)
    requires VenueOk(c, v) && KeepsVenue(c, v, v')
    ensures VenueOk(c, v')
  {
    forall user, a
      ensures BookFrozen(c, v'.book, user, a) <= Get(v'.funds.balances, BalanceKey(user, FREEZE, a))
    {
      assert BookFrozen(c, v.book, user, a) <= Get(v.funds.balances, BalanceKey(user, FREEZE, a));
    }
  }

  lemma AdmitIsSafe(c: MarketConf, v: Venue, input: OrderInput, user: Uuid)
    requires VenueOk(c, v) && Sensible(input) && Refusal(c, v, input, user).None?
    ensures Admit(c, v, input, user).Some?
    ensures KeepsVenue(c, v, Admit(c, v, input, user).value.venue)
    ensures Admit(c, v, input, user).value.venue.counters.orderId == v.counters.orderId + 1
  {
    var o, limit := NewOrder(c, v.counters.orderId + 1, input, user), QuoteLimit(c, v, input, user);
    AdmittedIsReady(c, v, input, user);
    ExecuteKeepsBook(c, NextOrderId(v), o, limit);
    ExecuteMovesFrozen(c, NextOrderId(v), o, limit);
    ExecuteKeepsFunds(c, NextOrderId(v), o, limit);
    ExecuteIds(c, NextOrderId(v), o, limit);
  }

  lemma AdmitConserves(c: MarketConf, v: Venue, input: OrderInput, user: Uuid, a: Asset)
    requires VenueOk(c, v) && Sensible(input) && Refusal(c, v, input, user).None?
    ensures Admit(c, v, input, user).Some?
    ensures var placed := Admit(c, v, input, user).value;
            Total(placed.venue.funds.balances, a) + FeesCharged(placed.events, a) == Total(v.funds.balances, a)
  {
    AdmittedIsReady(c, v, input, user);
    ExecuteConserves(c, NextOrderId(v), NewOrder(c, v.counters.orderId + 1, input, user), QuoteLimit(c, v, input, user), a);
  }

  lemma AdmitExecutes(c: MarketConf, v: Venue, input: OrderInput, user: Uuid, o: Order, limit: int)
    requires o == NewOrder(c, v.counters.orderId + 1, input, user) && limit == QuoteLimit(c, v, input, user)
    ensures Admit(c, v, input, user) == Execute(c, NextOrderId(v), o, limit)
    ensures NextOrderId(v).book == v.book && NextOrderId(v).funds == v.funds && o.user == user
  {
  }

  lemma AdmitCounts(c: MarketConf, v: Venue, input: OrderInput, user: Uuid, other: Uuid)
    requires VenueOk(c, v) && Sensible(input) && Refusal(c, v, input, user).None?
    ensures Admit(c, v, input, user).Some?
    ensures BookCount(Admit(c, v, input, user).value.venue.book, other)
         <= BookCount(v.book, other) + if other == user then 1 else 0
  {
    var o, limit := NewOrder(c, v.counters.orderId + 1, input, user), QuoteLimit(c, v, input, user);
    AdmittedIsReady(c, v, input, user);
    AdmitExecutes(c, v, input, user, o, limit);
    ExecuteCounts(c, NextOrderId(v), o, limit, other);
  }

  /** `put_order` never panics; an accepted order keeps the venue sound, takes the next order id,
      adds at most one open order, and takes nothing but fees out of the ledger. */
  lemma PutOrderIsSafe(c: MarketConf, v: Venue, input: OrderInput, user: Uuid)
    requires VenueOk(c, v) && Sensible(input)
    ensures !PutOrder(c, v, input, user).Crashed?
    ensures PutOrder(c, v, input, user).Accepted? ==>
              var placed := PutOrder(c, v, input, user).placed;
              && KeepsVenue(c, v, placed.venue)
              && placed.venue.counters.orderId == v.counters.orderId + 1
              && (forall a :: Total(placed.venue.funds.balances, a) + FeesCharged(placed.events, a) == Total(v.funds.balances, a))
              && (forall other :: BookCount(placed.venue.book, other)
                                  <= BookCount(v.book, other) + if other == user then 1 else 0)
  {
    if Refusal(c, v, input, user).None? {
      AdmitIsSafe(c, v, input, user);
      var placed := Admit(c, v, input, user).value;
      forall a
        ensures Total(placed.venue.funds.balances, a) + FeesCharged(placed.events, a) == Total(v.funds.balances, a)
      {
        AdmitConserves(c, v, input, user, a);
      }
      forall other
        ensures BookCount(placed.venue.book, other) <= BookCount(v.book, other) + if other == user then 1 else 0
      {
        AdmitCounts(c, v, input, user, other);
      }
    }
  }

  // ---------------------------------------------------------------- finishing

  lemma WithoutKeepsSide(c: MarketConf, side: OrderSide, s: seq<Order>, i: nat, maxId: nat)
    requires SideOk(c, side, s, maxId) && i < |s|
    ensures SideOk(c, side, s[..i] + s[i + 1..], maxId)
  {
    var r := s[..i] + s[i + 1..];
    assert forall k | 0 <= k < |r| :: r[k] == s[if k < i then k else k + 1];
    forall j, k | 0 <= j < k < |r|
      ensures Before(side, KeyOf(r[j]), KeyOf(r[k])) && r[j].id != r[k].id
    {
      var j', k' := if j < i then j else j + 1, if k < i then k else k + 1;
      assert r[j] == s[j'] && r[k] == s[k'];
    }
    forall k | 0 <= k < |r|
      ensures Working(c, side, r[k], maxId) && 0 < r[k].remain
    {
      assert Working(c, side, s[if k < i then k else k + 1], maxId);
    }
  }

  lemma WithoutStaysApart(s: seq<Order>, i: nat, t: seq<Order>, side: OrderSide)
    requires i < |s|
    requires if side == ASK then Apart(s, t) else Apart(t, s)
    ensures var r := s[..i] + s[i + 1..]; if side == ASK then Apart(r, t) else Apart(t, r)
  {
    var r := s[..i] + s[i + 1..];
    assert forall k | 0 <= k < |r| :: r[k] == s[if k < i then k else k + 1];
  }

  lemma FrozenIsCovered(c: MarketConf, v: Venue, side: OrderSide, i: nat)
    requires VenueOk(c, v) && i < |v.book.Side(side)|
    ensures var o := v.book.Side(side)[i];
            0 <= o.frozen <= Get(v.funds.balances, BalanceKey(o.user, FREEZE, PayAsset(c, side)))
  {
    var s := v.book.Side(side);
    var o := s[i];
    SideFrozenNonNegative(c, side, s, v.counters.orderId);
    FrozenOfAtLeast(s, i, o.user);
    assert BookFrozen(c, v.book, o.user, PayAsset(c, side)) == FrozenOf(s, o.user);
  }

  lemma WithoutIds(s: seq<Order>, i: nat)
    requires i < |s|
    ensures Ids(s[..i] + s[i + 1..]) <= Ids(s)
  {
    var r := s[..i] + s[i + 1..];
    forall k | 0 <= k < |r|
      ensures r[k].id in Ids(s)
    {
      assert r[k] == s[if k < i then k else k + 1];
    }
  }

  lemma FinishMovesFrozen(c: MarketConf, book: Book, balances: Balances, side: OrderSide, i: nat)
    requires i < |book.Side(side)| && DistinctIds(book.Side(side)) && book.Side(side)[i].side == side
    requires book.Side(side)[i].remain != 0 && c.base != c.quote
    ensures var s := book.Side(side);
            var (book', balances') := Finish(c, book, balances, s[i]);
            && book' == book.WithSide(side, s[..i] + s[i + 1..])
            && balances' == Unfrozen(balances, s[i].user, PayAsset(c, side), s[i].frozen)
            && FrozenMoved(c, book, balances, book', balances')
  {
    var s := book.Side(side);
    WithoutSplits(s, s[i].id, i);
    var (book', balances') := Finish(c, book, balances, s[i]);
    forall user, a
      ensures Get(balances', BalanceKey(user, FREEZE, a)) - Get(balances, BalanceKey(user, FREEZE, a))
           == BookFrozen(c, book', user, a) - BookFrozen(c, book, user, a)
    {
      WithoutSubtractsFrozen(s, i, user);
    }
  }

  /** Finishing an order takes out that order alone and returns exactly what it had frozen. */
  lemma FinishIsSafe(c: MarketConf, v: Venue, side: OrderSide, i: nat)
    requires VenueOk(c, v) && i < |v.book.Side(side)|
    ensures var o := v.book.Side(side)[i];
            var (book, balances) := Finish(c, v.book, v.funds.balances, o);
            && book == v.book.WithSide(side, v.book.Side(side)[..i] + v.book.Side(side)[i + 1..])
            && balances == Unfrozen(v.funds.balances, o.user, PayAsset(c, side), o.frozen)
            && KeepsVenue(c, v, Venue(book, v.funds.(balances := balances), v.counters))
  {
    var s := v.book.Side(side);
    assert Working(c, side, s[i], v.counters.orderId) && 0 < s[i].remain;
    FinishMovesFrozen(c, v.book, v.funds.balances, side, i);
    WithoutKeepsSide(c, side, s, i, v.counters.orderId);
    WithoutStaysApart(s, i, v.book.Side(Opposite(side)), side);
    FrozenIsCovered(c, v, side, i);
    WithoutIds(s, i);
    UnfreezingStaysNonNegative(v.funds.balances, s[i].user, PayAsset(c, side), s[i].frozen);
  }

  lemma SideFrozenNonNegative(c: MarketConf, side: OrderSide, s: seq<Order>, maxId: nat)
    requires AllWorking(c, side, s, maxId)
    ensures forall o | o in s :: 0 <= o.frozen
  {
    forall i | 0 <= i < |s|
      ensures 0 <= s[i].frozen
    {
      ProductMonotone(0, s[i].remain, c.lot);
      ProductMonotone(0, s[i].remain, s[i].price);
    }
  }

  lemma UnfreezingStaysNonNegative(b: Balances, user: Uuid, asset: Asset, amount: int)
    requires NoneNegative(b) && 0 <= amount <= Get(b, BalanceKey(user, FREEZE, asset))
    ensures NoneNegative(Unfrozen(b, user, asset, amount))
  {
    GetNonNegative(b);
  }

  lemma FindLocates(b: Book, id: nat)
    ensures Find(b, id).Some? ==>
              var o := Find(b, id).value;
              o.id == id && ((exists i | 0 <= i < |b.asks| :: b.asks[i] == o) || (exists i | 0 <= i < |b.bids| :: b.bids[i] == o))
    ensures Find(b, id).None? ==> id !in BookIds(b)
  {
    var all := b.asks + b.bids;
    var i := IndexOf(all, id);
    if i < |b.asks| {
      assert all[i] == b.asks[i];
    } else if i < |all| {
      assert all[i] == b.bids[i - |b.asks|];
    } else {
      assert forall j | 0 <= j < |b.asks| :: all[j] == b.asks[j];
      assert forall j | 0 <= j < |b.bids| :: all[|b.asks| + j] == b.bids[j];
    }
  }

  /** Finishing whichever order has the id, if any, keeps the venue sound and conserves. */
  lemma FinishFoundIsSafe(c: MarketConf, v: Venue, id: nat)
    requires VenueOk(c, v) && Find(v.book, id).Some?
    ensures var (book, balances) := Finish(c, v.book, v.funds.balances, Find(v.book, id).value);
            && KeepsVenue(c, v, Venue(book, v.funds.(balances := balances), v.counters))
            && (forall a :: Total(balances, a) == Total(v.funds.balances, a))
            && (forall user :: BookCount(book, user) <= BookCount(v.book, user))
            && id !in BookIds(book)
  {
    FindLocates(v.book, id);
    var o := Find(v.book, id).value;
    var side := if exists i | 0 <= i < |v.book.asks| :: v.book.asks[i] == o then ASK else BID;
    var s := v.book.Side(side);
    var i :| 0 <= i < |s| && s[i] == o;
    FinishIsSafe(c, v, side, i);
    assert Working(c, side, o, v.counters.orderId);
    var (book, balances) := Finish(c, v.book, v.funds.balances, o);
    forall a
      ensures Total(balances, a) == Total(v.funds.balances, a)
    {
      FreezingConserves(v.funds.balances, o.user, PayAsset(c, side), o.frozen, a);
    }
    forall user
      ensures BookCount(book, user) <= BookCount(v.book, user)
    {
      WithoutSubtractsFrozen(s, i, user);
    }
    FinishedIsGone(c, v, side, i);
  }

  lemma FinishedIsGone(c: MarketConf, v: Venue, side: OrderSide, i: nat)
    requires BookOk(c, v.book, v.counters.orderId) && i < |v.book.Side(side)|
    ensures v.book.Side(side)[i].id !in Ids(v.book.Side(side)[..i] + v.book.Side(side)[i + 1..])
    ensures v.book.Side(side)[i].id !in Ids(v.book.Side(Opposite(side)))
  {
    var s := v.book.Side(side);
    var r := s[..i] + s[i + 1..];
    forall k | 0 <= k < |r|
      ensures r[k].id != s[i].id
    {
      assert r[k] == s[if k < i then k else k + 1];
    }
  }
}
