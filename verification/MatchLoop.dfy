/** What the matching loop keeps true, one turn at a time and then over the whole loop: settlement
    never fails, frozen funds move with the orders they back, and nothing but fees leaves the ledger. */
module MatchLoop {
  import opened Types
  import opened Orders
  import opened Ledger
  import opened Matching
  import opened Settlement

  /** A limit order of this market, not necessarily still in the book. */
  ghost predicate Working(c: MarketConf, side: OrderSide, o: Order, maxId: nat)
  {
    && o.side == side && o.kind == LIMIT && o.market == c.name && o.id <= maxId
    && 0 < o.price && 0 <= o.remain && 0 <= o.finishedBase
    && o.remain + o.finishedBase == o.amount
    && o.frozen == Backing(c, o)
    && o.makerFee <= FEE_ONE && o.takerFee <= FEE_ONE
  }

  ghost predicate AllWorking(c: MarketConf, side: OrderSide, s: seq<Order>, maxId: nat)
  {
    forall i | 0 <= i < |s| :: Working(c, side, s[i], maxId)
  }

  ghost predicate AllOpen(s: seq<Order>)
  {
    forall i | 0 <= i < |s| :: 0 < s[i].remain
  }

  /** The balances hold at least what these orders have frozen. */
  ghost predicate Covered(b: Balances, asset: Asset, s: seq<Order>)
  {
    forall user :: FrozenOf(s, user) <= Get(b, BalanceKey(user, FREEZE, asset))
  }

  ghost predicate TradeIdsUpTo(cache: set<UpdateKey>, id: nat)
  {
    forall k | k in cache && k.businessType == Trading :: k.businessId <= id
  }

  /** The most the taker may still have to pay. */
  function Budget(c: MarketConf, s: Matched, limit: int): int
  {
    if s.taker.IsAsk() then s.taker.remain * c.lot
    else if s.taker.kind == LIMIT then s.taker.remain * s.taker.price
    else limit - s.quoteSum
  }

  ghost predicate SafeConf(c: MarketConf)
  {
    c.base != c.quote && 0 <= c.minAmount
  }

  ghost predicate TakerOk(t: Order)
  {
    && 0 <= t.remain && 0 <= t.finishedBase && t.remain + t.finishedBase == t.amount
    && t.makerFee <= FEE_ONE && t.takerFee <= FEE_ONE
    && (t.kind == LIMIT ==> 0 < t.price)
  }

  function MakerSide(s: Matched): OrderSide
  {
    Opposite(s.taker.side)
  }

  /** The loop's state, whether or not users may trade with themselves. */
  ghost predicate LoopSound(c: MarketConf, s: Matched, limit: int, maxId: nat)
  {
    && SafeConf(c)
    && TakerOk(s.taker)
    && AllWorking(c, MakerSide(s), s.done, maxId)
    && AllWorking(c, MakerSide(s), s.rest, maxId)
    && AllOpen(s.rest)
    && NoneNegative(s.funds.balances)
    && Covered(s.funds.balances, PayAsset(c, MakerSide(s)), s.done + s.rest)
    && Budget(c, s, limit) <= Get(s.funds.balances, BalanceKey(s.taker.user, AVAILABLE, PayAsset(c, s.taker.side)))
    && (s.taker.kind == MARKET && !s.taker.IsAsk() ==> s.quoteSum <= limit)
    && TradeIdsUpTo(s.funds.cache, s.tradeId)
  }

  ghost predicate LoopOk(c: MarketConf, s: Matched, limit: int, maxId: nat)
  {
    LoopSound(c, s, limit, maxId) && c.disableSelfTrade
  }

  /** This turn trades: none of the loop's exits is taken. */
  predicate Trades(c: MarketConf, s: Matched, limit: int)
  {
    s.rest != [] && Choose(c, s.taker, s.rest[0], s.quoteSum, limit).TradeHere?
  }

  function TurnDeal(c: MarketConf, s: Matched, limit: int): Deal
    requires s.rest != []
  {
    MakeDeal(c, s.taker, s.rest[0], DealAmount(s.taker, s.rest[0], s.quoteSum, limit))
  }

  function TurnUpdates(c: MarketConf, s: Matched, limit: int): (u: seq<UpdateParams>)
    requires s.rest != []
    ensures |u| == 4
  {
    DealUpdates(c, s.taker, s.rest[0], TurnDeal(c, s, limit), s.tradeId + 1)
  }

  /** A deal is within both orders' remains, at a price within both limits, and within what the
      taker may still spend. */
  lemma DealFits(c: MarketConf, s: Matched, limit: int, maxId: nat)
    requires LoopSound(c, s, limit, maxId) && Trades(c, s, limit)
    ensures var d := TurnDeal(c, s, limit);
            && 0 < d.amount <= s.taker.remain && d.amount <= s.rest[0].remain
            && d.quote == s.rest[0].price * d.amount && 0 < d.quote
            && (if s.taker.IsAsk() then d.amount * c.lot else d.quote) <= Budget(c, s, limit)
            && (s.taker.kind == MARKET && !s.taker.IsAsk() ==> s.quoteSum + d.quote <= limit)
            && (if s.rest[0].IsAsk() then d.amount * c.lot else d.quote) <= s.rest[0].frozen
            && 0 <= Charged(d.bidFee) <= d.amount * c.lot
            && 0 <= Charged(d.askFee) <= d.quote
  {
    var d := TurnDeal(c, s, limit);
    var maker := s.rest[0];
    var a := Min(s.taker.remain, maker.remain);
    if !s.taker.IsAsk() && s.taker.kind == MARKET && s.quoteSum + maker.price * a > limit {
      QuotientFits(limit - s.quoteSum, maker.price, a);
    }
    assert 0 < d.amount <= a;
    ProductMonotone(d.amount, maker.remain, maker.price);
    ProductMonotone(d.amount, maker.remain, c.lot);
    ProductMonotone(d.amount, s.taker.remain, c.lot);
    if s.taker.kind == LIMIT && !s.taker.IsAsk() {
      ProductMonotone(maker.price, s.taker.price, d.amount);
      ProductMonotone(d.amount, s.taker.remain, s.taker.price);
    }
    FeeBounds(d.quote, if s.taker.IsAsk() then s.taker.takerFee else maker.makerFee);
    FeeBounds(d.amount * c.lot, if s.taker.IsAsk() then maker.makerFee else s.taker.takerFee);
  }

  lemma ProductMonotone(x: int, y: int, k: int)
    requires 0 <= k && x <= y
    ensures x * k <= y * k
  {
  }

  lemma ProductOfDifference(x: int, y: int, k: int)
    ensures (x - y) * k == x * k - y * k
  {
  }

  lemma QuotientFits(room: int, price: int, a: int)
    requires 0 < price && 0 <= room < price * a
    ensures 0 <= room / price <= a
    ensures price * (room / price) <= room
  {
    if room / price > a {
      ProductMonotone(a, room / price, price);
    }
  }

  lemma TwoUsersSettle(c: MarketConf, s: Matched, limit: int, maxId: nat)
    requires LoopSound(c, s, limit, maxId) && Trades(c, s, limit) && s.taker.user != s.rest[0].user
    ensures Unrelated(TurnUpdates(c, s, limit)) && Settle(s.funds, TurnUpdates(c, s, limit)).Ok?
  {
    var maker, u := s.rest[0], TurnUpdates(c, s, limit);
    DealFits(c, s, limit, maxId);
    DealUpdatesUnrelated(c, s.taker, maker, TurnDeal(c, s, limit), s.tradeId + 1);
    assert FrozenBy((s.done + s.rest)[|s.done|], maker.user) == maker.frozen;
    AllFrozenNonNegative(c, s, maxId);
    FrozenOfAtLeast(s.done + s.rest, |s.done|, maker.user);
    SettleIffAffordable(s.funds, u);
    GetNonNegative(s.funds.balances);
    assert Affordable(s.funds, u[0]) && Affordable(s.funds, u[2]);
    assert Affordable(s.funds, u[1]) && Affordable(s.funds, u[3]);
  }

  /** A trade the loop chooses settles exactly when it is between two users.  Self-trading, where the
      settings allow it, makes `unwrap` panic. */
  lemma SettlesIffTwoUsers(c: MarketConf, s: Matched, limit: int, maxId: nat)
    requires LoopSound(c, s, limit, maxId) && Trades(c, s, limit)
    ensures Settle(s.funds, TurnUpdates(c, s, limit)).Ok? <==> s.taker.user != s.rest[0].user
  {
    if s.taker.user != s.rest[0].user {
      TwoUsersSettle(c, s, limit, maxId);
    } else {
      SelfDealNeverSettles(c, s.funds, s.taker, s.rest[0], TurnDeal(c, s, limit), s.tradeId + 1);
    }
  }

  /** The four updates of a turn all go through. */
  lemma TurnSettles(c: MarketConf, s: Matched, limit: int, maxId: nat)
    requires LoopOk(c, s, limit, maxId) && Trades(c, s, limit)
    ensures Unrelated(TurnUpdates(c, s, limit))
    ensures Settle(s.funds, TurnUpdates(c, s, limit)).Ok?
    ensures Turn(c, s, limit).Go?
  {
    TwoUsersSettle(c, s, limit, maxId);
  }

  lemma GetNonNegative(b: Balances)
    requires NoneNegative(b)
    ensures forall k :: 0 <= Get(b, k)
  {
  }

  lemma AllFrozenNonNegative(c: MarketConf, s: Matched, maxId: nat)
    requires AllWorking(c, MakerSide(s), s.done, maxId) && AllWorking(c, MakerSide(s), s.rest, maxId)
    ensures forall o | o in s.done + s.rest :: 0 <= o.frozen
  {
    forall i | 0 <= i < |s.done + s.rest|
      ensures 0 <= (s.done + s.rest)[i].frozen
    {
      var o := (s.done + s.rest)[i];
      assert Working(c, MakerSide(s), o, maxId);
      ProductMonotone(0, o.remain, c.lot);
      ProductMonotone(0, o.remain, o.price);
    }
  }

  /** What a turn that trades leads to. */
  lemma TurnGoes(c: MarketConf, s: Matched, limit: int, maxId: nat)
    requires LoopOk(c, s, limit, maxId) && Trades(c, s, limit)
    ensures Settle(s.funds, TurnUpdates(c, s, limit)).Ok?
    ensures Turn(c, s, limit) == Go(Advance(c, s, TurnDeal(c, s, limit), Settle(s.funds, TurnUpdates(c, s, limit)).value))
  {
    TurnSettles(c, s, limit, maxId);
  }

  /** After a deal the maker still has exactly the backing its remain needs. */
  lemma MakerStaysBacked(c: MarketConf, side: OrderSide, maker: Order, d: Deal, maxId: nat)
    requires Working(c, side, maker, maxId)
    requires 0 < d.amount <= maker.remain && d.quote == maker.price * d.amount
    ensures Working(c, side, MakerAfterDeal(c, maker, d), maxId)
  {
    ProductOfDifference(maker.remain, d.amount, c.lot);
    ProductOfDifference(maker.remain, d.amount, maker.price);
  }

  lemma FrozenAfterTurn(done: seq<Order>, rest: seq<Order>, maker': Order, user: Uuid)
    requires rest != []
    ensures FrozenOf(done + [maker'] + rest[1..], user)
         == FrozenOf(done + rest, user) - FrozenBy(rest[0], user) + FrozenBy(maker', user)
    ensures maker'.user == rest[0].user
        ==> CountOf(done + [maker'] + rest[1..], user) == CountOf(done + rest, user)
  {
    assert done + rest == done + [rest[0]] + rest[1..];
    FrozenOfConcat(done + [rest[0]], rest[1..], user);
    FrozenOfConcat(done + [maker'], rest[1..], user);
    FrozenOfConcat(done, [rest[0]], user);
    FrozenOfConcat(done, [maker'], user);
    FrozenOfOne(rest[0], user);
    FrozenOfOne(maker', user);
  }

  /** Frozen balances move exactly with the frozen amounts of the makers. */
  ghost predicate FrozenFollows(asset: Asset, b: Balances, s: seq<Order>, b': Balances, s': seq<Order>)
  {
    forall user, a :: Get(b', BalanceKey(user, FREEZE, a)) - Get(b, BalanceKey(user, FREEZE, a))
                   == if a == asset then FrozenOf(s', user) - FrozenOf(s, user) else 0
  }

  lemma TurnMovesFrozen(c: MarketConf, s: Matched, limit: int, maxId: nat)
    requires LoopOk(c, s, limit, maxId) && Trades(c, s, limit)
    ensures Turn(c, s, limit).Go?
    ensures var s' := Turn(c, s, limit).next;
            FrozenFollows(PayAsset(c, MakerSide(s)), s.funds.balances, s.done + s.rest, s'.funds.balances, s'.done + s'.rest)
  {
    TurnSettles(c, s, limit, maxId);
    var s' := Turn(c, s, limit).next;
    var u := TurnUpdates(c, s, limit);
    SettleIffAffordable(s.funds, u);
    var maker' := MakerAfterDeal(c, s.rest[0], TurnDeal(c, s, limit));
    forall user, a
      ensures Get(s'.funds.balances, BalanceKey(user, FREEZE, a)) - Get(s.funds.balances, BalanceKey(user, FREEZE, a))
           == if a == PayAsset(c, MakerSide(s)) then FrozenOf(s'.done + s'.rest, user) - FrozenOf(s.done + s.rest, user) else 0
    {
      FrozenAfterTurn(s.done, s.rest, maker', user);
      assert s'.funds == Settle(s.funds, u).value;
      assert Get(s'.funds.balances, BalanceKey(user, FREEZE, a))
          == Get(s.funds.balances, BalanceKey(user, FREEZE, a)) + ChangeAt(u, BalanceKey(user, FREEZE, a));
    }
  }

  lemma TurnKeepsFunds(c: MarketConf, s: Matched, limit: int, maxId: nat)
    requires LoopOk(c, s, limit, maxId) && Trades(c, s, limit)
    ensures Turn(c, s, limit).Go?
    ensures NoneNegative(Turn(c, s, limit).next.funds.balances)
    ensures TradeIdsUpTo(Turn(c, s, limit).next.funds.cache, s.tradeId + 1)
  {
    TurnSettles(c, s, limit, maxId);
    SettleIffAffordable(s.funds, TurnUpdates(c, s, limit));
  }

  /** What the taker pays in a turn is at most what its budget shrinks by. */
  lemma BudgetAfterDeal(c: MarketConf, s: Matched, limit: int, maxId: nat, s': Matched)
    requires LoopOk(c, s, limit, maxId) && Trades(c, s, limit)
    requires var d := TurnDeal(c, s, limit); s'.taker == AfterDeal(s.taker, d) && s'.quoteSum == s.quoteSum + d.quote
    ensures var d := TurnDeal(c, s, limit);
            Budget(c, s', limit) <= Budget(c, s, limit) - if s.taker.IsAsk() then d.amount * c.lot else d.quote
  {
    DealFits(c, s, limit, maxId);
    var d, t := TurnDeal(c, s, limit), s.taker;
    if t.IsAsk() {
      ProductOfDifference(t.remain, d.amount, c.lot);
    } else if t.kind == LIMIT {
      ProductOfDifference(t.remain, d.amount, t.price);
      ProductMonotone(s.rest[0].price, t.price, d.amount);
    }
  }

  lemma TurnPaysTaker(c: MarketConf, s: Matched, limit: int, maxId: nat)
    requires LoopOk(c, s, limit, maxId) && Trades(c, s, limit)
    ensures Turn(c, s, limit).Go?
    ensures var s' := Turn(c, s, limit).next;
            Budget(c, s', limit) <= Get(s'.funds.balances, BalanceKey(s.taker.user, AVAILABLE, PayAsset(c, s.taker.side)))
  {
    TurnSettles(c, s, limit, maxId);
    var s', d, u := Turn(c, s, limit).next, TurnDeal(c, s, limit), TurnUpdates(c, s, limit);
    SettleIffAffordable(s.funds, u);
    BudgetAfterDeal(c, s, limit, maxId, s');
    var k := BalanceKey(s.taker.user, AVAILABLE, PayAsset(c, s.taker.side));
    assert ChangeAt(u, k) == -if s.taker.IsAsk() then d.amount * c.lot else d.quote;
  }

  /** One turn of the loop keeps the loop's invariant. */
  lemma TurnKeepsLoop(c: MarketConf, s: Matched, limit: int, maxId: nat)
    requires LoopOk(c, s, limit, maxId)
    ensures !Turn(c, s, limit).Panic?
    ensures Turn(c, s, limit).Go? ==> Trades(c, s, limit) && LoopOk(c, Turn(c, s, limit).next, limit, maxId)
  {
    if Trades(c, s, limit) {
      TurnMovesFrozen(c, s, limit, maxId);
      TurnKeepsFunds(c, s, limit, maxId);
      TurnPaysTaker(c, s, limit, maxId);
      DealFits(c, s, limit, maxId);
      var s', maker, d := Turn(c, s, limit).next, s.rest[0], TurnDeal(c, s, limit);
      MakerStaysBacked(c, MakerSide(s), maker, d, maxId);
      assert Covered(s'.funds.balances, PayAsset(c, MakerSide(s)), s'.done + s'.rest) by {
        forall user
          ensures FrozenOf(s'.done + s'.rest, user) <= Get(s'.funds.balances, BalanceKey(user, FREEZE, PayAsset(c, MakerSide(s))))
        {
          assert FrozenOf(s.done + s.rest, user) <= Get(s.funds.balances, BalanceKey(user, FREEZE, PayAsset(c, MakerSide(s))));
        }
      }
    }
  }

  /** The fees charged in an asset by the trades among some events. */
  function FeesIn(e: Event, a: Asset): int
  {
    match e
    case TradeEvent(t, base, quote) =>
      (if base == a then Charged(t.bidFee) else 0) + (if quote == a then Charged(t.askFee) else 0)
    case _ => 0
  }

  function FeesCharged(events: seq<Event>, a: Asset): int
  {
    if events == [] then 0 else FeesCharged(events[..|events| - 1], a) + FeesIn(events[|events| - 1], a)
  }

  lemma {:induction false} FeesConcat(e1: seq<Event>, e2: seq<Event>, a: Asset)
    ensures FeesCharged(e1 + e2, a) == FeesCharged(e1, a) + FeesCharged(e2, a)
  {
    if e2 == [] {
      assert e1 + e2 == e1;
    } else {
      FeesConcat(e1, e2[..|e2| - 1], a);
      assert (e1 + e2)[..|e1 + e2| - 1] == e1 + e2[..|e2| - 1];
    }
  }

  lemma DealCharges(c: MarketConf, tradeId: nat, taker: Order, maker: Order, d: Deal, a: Asset)
    ensures FeesCharged(DealEvents(c, tradeId, taker, maker, d), a)
         == (if c.base == a then Charged(d.bidFee) else 0) + (if c.quote == a then Charged(d.askFee) else 0)
  {
    var maker' := MakerAfterDeal(c, maker, d);
    var trade := TradeEvent(MakeTrade(c, tradeId, taker, maker, d), c.base, c.quote);
    var last: seq<Event> := if maker'.remain == 0 then [] else [OrderEvent(maker', UPDATE)];
    assert DealEvents(c, tradeId, taker, maker, d) == [trade] + last;
    FeesConcat([trade], last, a);
    assert [trade][..0] == [] && FeesCharged(last, a) == 0;
  }

  /** What a deal's updates take out of an asset is what its trade charges. */
  lemma DealTakesFees(c: MarketConf, tradeId: nat, taker: Order, maker: Order, d: Deal, a: Asset)
    ensures ChangeIn(DealUpdates(c, taker, maker, d, tradeId), a) == -FeesCharged(DealEvents(c, tradeId, taker, maker, d), a)
  {
    DealCharges(c, tradeId, taker, maker, d, a);
  }

  lemma AdvanceCharges(c: MarketConf, s: Matched, d: Deal, funds: Funds, a: Asset)
    requires s.rest != []
    ensures FeesCharged(Advance(c, s, d, funds).events, a)
         == FeesCharged(s.events, a) - ChangeIn(DealUpdates(c, s.taker, s.rest[0], d, s.tradeId + 1), a)
  {
    DealTakesFees(c, s.tradeId + 1, s.taker, s.rest[0], d, a);
    FeesConcat(s.events, DealEvents(c, s.tradeId + 1, s.taker, s.rest[0], d), a);
  }

  lemma AdvanceConserves(c: MarketConf, s: Matched, limit: int, a: Asset, s': Matched)
    requires s.rest != [] && NoneNegative(s.funds.balances) && Settle(s.funds, TurnUpdates(c, s, limit)).Ok?
    requires s' == Advance(c, s, TurnDeal(c, s, limit), Settle(s.funds, TurnUpdates(c, s, limit)).value)
    ensures Total(s'.funds.balances, a) + FeesCharged(s'.events, a) == Total(s.funds.balances, a) + FeesCharged(s.events, a)
  {
    SettleTotals(s.funds, TurnUpdates(c, s, limit), a);
    AdvanceCharges(c, s, TurnDeal(c, s, limit), Settle(s.funds, TurnUpdates(c, s, limit)).value, a);
  }

  /** A turn takes exactly its trade's fees out of the ledger. */
  lemma TurnConserves(c: MarketConf, s: Matched, limit: int, maxId: nat, a: Asset)
    requires LoopOk(c, s, limit, maxId) && Trades(c, s, limit)
    ensures Turn(c, s, limit).Go?
    ensures var s' := Turn(c, s, limit).next;
            Total(s'.funds.balances, a) + FeesCharged(s'.events, a) == Total(s.funds.balances, a) + FeesCharged(s.events, a)
  {
    TurnGoes(c, s, limit, maxId);
    AdvanceConserves(c, s, limit, a, Turn(c, s, limit).next);
  }

  /** Settlement never fails, and the whole loop keeps its invariant, moves frozen funds with their
      orders, and loses nothing but fees. */
  lemma {:induction false} MatchIsSafe(c: MarketConf, s: Matched, limit: int, maxId: nat)
    requires LoopOk(c, s, limit, maxId)
    ensures Match(c, s, limit).Ended?
    ensures var m := Match(c, s, limit).s;
            && LoopOk(c, m, limit, maxId)
            && m.taker.side == s.taker.side && s.tradeId <= m.tradeId
            && FrozenFollows(PayAsset(c, MakerSide(s)), s.funds.balances, s.done + s.rest, m.funds.balances, m.done + m.rest)
            && forall a :: Total(m.funds.balances, a) + FeesCharged(m.events, a)
                        == Total(s.funds.balances, a) + FeesCharged(s.events, a)
    decreases |s.rest|
  {
    TurnKeepsLoop(c, s, limit, maxId);
    if Turn(c, s, limit).Go? {
      var s' := Turn(c, s, limit).next;
      TurnMovesFrozen(c, s, limit, maxId);
      forall a
        ensures Total(s'.funds.balances, a) + FeesCharged(s'.events, a) == Total(s.funds.balances, a) + FeesCharged(s.events, a)
      {
        TurnConserves(c, s, limit, maxId, a);
      }
      MatchIsSafe(c, s', limit, maxId);
    }
  }
}
