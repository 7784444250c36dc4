/** The trades of an order, read off the events: between whom, at which price, for how much, at which
    fees, and under which numbers. */
module Trades {
  import opened Types
  import opened Orders
  import opened Ledger
  import opened Matching
  import opened MatchLoop
  import opened MatchShape
  import opened BookInvariant
  import opened VenueInvariant
  import opened Greedy
  import opened Trace
  import opened OrderExecution
  import opened Precision
  import opened ExchangeInvariant
  import opened Sums

  function TradesOf(events: seq<Event>): seq<Trade>
  {
    if events == [] then []
    else
      var last := events[|events| - 1];
      TradesOf(events[..|events| - 1]) + if last.TradeEvent? then [last.trade] else []
  }

  lemma {:induction false} TradesConcat(a: seq<Event>, b: seq<Event>)
    ensures TradesOf(a + b) == TradesOf(a) + TradesOf(b)
  {
    if b == [] {
      assert a + b == a;
    } else {
      assert (a + b)[..|a + b| - 1] == a + b[..|b| - 1];
      TradesConcat(a, b[..|b| - 1]);
    }
  }

  lemma {:induction false} OrderEventsAreNoTrades(events: seq<Event>)
    requires forall e | e in events :: e.OrderEvent?
    ensures TradesOf(events) == []
  {
    if events != [] {
      assert events[|events| - 1] in events;
      OrderEventsAreNoTrades(events[..|events| - 1]);
    }
  }

  // ---------------------------------------------------------------- one trade

  function Magnitude(x: int): nat
  {
    if x >= 0 then x else -x
  }

  /** `fee` is `x * rate`, a rate being counted in 10^-28, cut off toward zero. */
  predicate IsFee(fee: int, x: int, rate: Fixed)
  {
    && Magnitude(fee) * FEE_ONE <= Magnitude(x * rate) < (Magnitude(fee) + 1) * FEE_ONE
    && (fee > 0 ==> x * rate > 0) && (fee < 0 ==> x * rate < 0)
  }

  lemma FeeCutsOff(x: int, rate: Fixed)
    ensures IsFee(Fee(x, rate), x, rate)
  {
  }

  /** The trade is between these two orders, at the maker's price; the taker pays its taker fee and the
      maker its maker fee, each on what it receives. */
  predicate TradeBetween(c: MarketConf, t: Trade, taker: Order, maker: Order)
  {
    && t.market == c.name && t.price == maker.price && 0 < t.amount && t.quoteAmount == maker.price * t.amount
    && (t.takerIsAsk <==> taker.side == ASK)
    && (taker.side == ASK ==>
          && t.askUser == taker.user && t.askOrderId == taker.id && IsFee(t.askFee, t.quoteAmount, taker.takerFee)
          && t.bidUser == maker.user && t.bidOrderId == maker.id && IsFee(t.bidFee, t.amount * c.lot, maker.makerFee))
    && (taker.side == BID ==>
          && t.askUser == maker.user && t.askOrderId == maker.id && IsFee(t.askFee, t.quoteAmount, maker.makerFee)
          && t.bidUser == taker.user && t.bidOrderId == taker.id && IsFee(t.bidFee, t.amount * c.lot, taker.takerFee))
  }

  function FirstTime(o: Order): Option<Order>
  {
    if o.finishedBase == 0 then Some(o) else None
  }

  lemma DealIsTrade(c: MarketConf, id: nat, taker: Order, maker: Order, amount: int)
    requires 0 < amount && maker.side != taker.side
    ensures var t := MakeTrade(c, id, taker, maker, MakeDeal(c, taker, maker, amount));
            && TradeBetween(c, t, taker, maker) && t.id == id && t.amount == amount
            && SnapshotIn(t, taker.side) == FirstTime(taker) && SnapshotIn(t, maker.side) == FirstTime(maker)
  {
    FeeCutsOff(maker.price * amount, if taker.IsAsk() then taker.takerFee else maker.makerFee);
    FeeCutsOff(amount * c.lot, if taker.IsAsk() then maker.makerFee else taker.takerFee);
  }

  // ---------------------------------------------------------------- the loop

  /** The `j`th trade is with the `j`th maker, under the `j`th number, for what that maker gave up; an
      order's snapshot goes with its first trade. */
  ghost predicate TradeAt(c: MarketConf, taker: Order, makers: seq<Order>, after: seq<Order>, ts: seq<Trade>, firstId: nat, j: nat)
    requires |makers| == |after| == |ts| && j < |ts|
  {
    && TradeBetween(c, ts[j], taker, makers[j]) && ts[j].id == firstId + j
    && after[j].remain == makers[j].remain - ts[j].amount
    && SnapshotIn(ts[j], makers[j].side) == FirstTime(makers[j])
    && SnapshotIn(ts[j], taker.side) == if j == 0 then FirstTime(taker) else None
  }

  ghost predicate Traded(c: MarketConf, taker: Order, makers: seq<Order>, after: seq<Order>, ts: seq<Trade>, firstId: nat)
  {
    && |makers| == |after| == |ts|
    && forall j | 0 <= j < |ts| :: TradeAt(c, taker, makers, after, ts, firstId, j)
  }

  lemma TradedStep(c: MarketConf, taker: Order, taker': Order, makers: seq<Order>, after: seq<Order>, ts: seq<Trade>, firstId: nat)
    requires |makers| == |after| == |ts| && ts != []
    requires TradeAt(c, taker, makers, after, ts, firstId, 0)
    requires SameOrder(taker, taker') && taker'.finishedBase != 0
    requires Traded(c, taker', makers[1..], after[1..], ts[1..], firstId + 1)
    ensures Traded(c, taker, makers, after, ts, firstId)
  {
    forall j | 0 < j < |ts|
      ensures TradeAt(c, taker, makers, after, ts, firstId, j)
    {
      assert TradeAt(c, taker', makers[1..], after[1..], ts[1..], firstId + 1, j - 1);
      assert makers[1..][j - 1] == makers[j] && after[1..][j - 1] == after[j] && ts[1..][j - 1] == ts[j];
    }
  }

  /** From `s` to `m` just these trades were made, and counted. */
  ghost predicate TradedFrom(c: MarketConf, s: Matched, m: Matched, ts: seq<Trade>)
  {
    && |s.done| <= |m.done| && |m.done| - |s.done| <= |s.rest|
    && TradesOf(m.events) == TradesOf(s.events) + ts
    && m.tradeId == s.tradeId + |ts| && m.tradeCount == s.tradeCount + |ts|
    && m.price == (if ts == [] then s.price else ts[|ts| - 1].price)
    && Traded(c, s.taker, s.rest[..|m.done| - |s.done|], m.done[|s.done|..], ts, s.tradeId + 1)
  }

  lemma DealEventsHoldTrade(c: MarketConf, id: nat, taker: Order, maker: Order, d: Deal)
    ensures TradesOf(DealEvents(c, id, taker, maker, d)) == [MakeTrade(c, id, taker, maker, d)]
  {
    var trade := [TradeEvent(MakeTrade(c, id, taker, maker, d), c.base, c.quote)];
    var maker' := MakerAfterDeal(c, maker, d);
    var update: seq<Event> := if maker'.remain == 0 then [] else [OrderEvent(maker', UPDATE)];
    TradesConcat(trade, update);
    OrderEventsAreNoTrades(update);
    assert trade[..0] == [] && TradesOf(trade[..0]) == [];
  }

  lemma AdvanceTrades(c: MarketConf, s: Matched, amount: int, funds: Funds) returns (t: Trade)
    requires s.rest != [] && 0 < amount && s.rest[0].side != s.taker.side
    ensures var s' := Advance(c, s, MakeDeal(c, s.taker, s.rest[0], amount), funds);
            && TradesOf(s'.events) == TradesOf(s.events) + [t] && s'.price == t.price
            && t.id == s.tradeId + 1 && TradeBetween(c, t, s.taker, s.rest[0])
            && s'.done == s.done + [Last(s'.done)] && Last(s'.done).remain == s.rest[0].remain - t.amount
            && SnapshotIn(t, s.rest[0].side) == FirstTime(s.rest[0]) && SnapshotIn(t, s.taker.side) == FirstTime(s.taker)
            && SameOrder(s.taker, s'.taker) && s'.taker.finishedBase == s.taker.finishedBase + amount
  {
    var maker := s.rest[0];
    var d := MakeDeal(c, s.taker, maker, amount);
    t := MakeTrade(c, s.tradeId + 1, s.taker, maker, d);
    DealIsTrade(c, s.tradeId + 1, s.taker, maker, amount);
    TradesConcat(s.events, DealEvents(c, s.tradeId + 1, s.taker, maker, d));
    DealEventsHoldTrade(c, s.tradeId + 1, s.taker, maker, d);
  }

  lemma TradedThenTraded(c: MarketConf, s: Matched, s': Matched, m: Matched, t: Trade, ts: seq<Trade>)
    requires s.rest != [] && s'.rest == s.rest[1..] && |s'.done| == |s.done| + 1
    requires TradedFrom(c, s', m, ts) && m.done[..|s'.done|] == s'.done
    requires TradesOf(s'.events) == TradesOf(s.events) + [t] && s'.price == t.price
    requires s'.tradeId == s.tradeId + 1 && s'.tradeCount == s.tradeCount + 1
    requires TradeBetween(c, t, s.taker, s.rest[0]) && t.id == s.tradeId + 1 && Last(s'.done).remain == s.rest[0].remain - t.amount
    requires SnapshotIn(t, s.rest[0].side) == FirstTime(s.rest[0]) && SnapshotIn(t, s.taker.side) == FirstTime(s.taker)
    requires SameOrder(s.taker, s'.taker) && s'.taker.finishedBase != 0
    ensures TradedFrom(c, s, m, [t] + ts)
  {
    var n, all := |m.done| - |s.done|, [t] + ts;
    var makers, after := s.rest[..n], m.done[|s.done|..];
    assert makers[1..] == s'.rest[..n - 1] && after[1..] == m.done[|s'.done|..] && all[1..] == ts;
    assert after[0] == m.done[..|s'.done|][|s.done|] == Last(s'.done);
    assert TradeAt(c, s.taker, makers, after, all, s.tradeId + 1, 0);
    TradedStep(c, s.taker, s'.taker, makers, after, all, s.tradeId + 1);
    Regroup(TradesOf(s.events), [t], ts);
  }

  /** The loop makes one trade with each maker it passes, and counts them. */
  lemma {:induction false} MatchTrades(c: MarketConf, s: Matched, limit: int, maxId: nat) returns (ts: seq<Trade>)
    requires LoopOk(c, s, limit, maxId)
    ensures Match(c, s, limit).Ended? && TradedFrom(c, s, Match(c, s, limit).s, ts)
    decreases |s.rest|
  {
    TurnKeepsLoop(c, s, limit, maxId);
    if Turn(c, s, limit).Go? {
      var s' := Turn(c, s, limit).next;
      TurnGoes(c, s, limit, maxId);
      DealFits(c, s, limit, maxId);
      var t := AdvanceTrades(c, s, TurnDeal(c, s, limit).amount, Settle(s.funds, TurnUpdates(c, s, limit)).value);
      var more := MatchTrades(c, s', limit, maxId);
      MatchTakes(c, s', limit, maxId);
      TradedThenTraded(c, s, s', Match(c, s, limit).s, t, more);
      ts := [t] + more;
    } else {
      ts := [];
      assert TradesOf(s.events) + [] == TradesOf(s.events);
      assert s.rest[..0] == [] && s.done[|s.done|..] == [];
    }
  }

  // ---------------------------------------------------------------- an accepted order

  /** Every field of the order a request becomes, in the request's own units. */
  lemma IncomingIsRequest(c: MarketConf, v: Venue, input: OrderInput, user: Uuid)
    requires PutOrder(c, v, input, user).Accepted?
    ensures var o := Incoming(c, v, input, user);
            && o.id == v.counters.orderId + 1 && o.market == c.name && o.user == user
            && o.kind == input.kind && o.side == input.side && o.postOnly == input.postOnly
            && o.takerFee == input.takerFee && o.makerFee == input.makerFee
            && o.amount * c.amountStep == input.amount && o.price * c.priceStep == input.price * c.tick
            && o.remain == o.amount && o.frozen == o.finishedBase == o.finishedQuote == o.finishedFee == 0
  {
    MultipleOfStep(input.amount, c.amountStep);
    MultipleOfStep(input.price, c.priceStep);
    SwapFactors(input.price / c.priceStep, c.tick, c.priceStep);
  }

  lemma SwapFactors(x: int, y: int, z: int)
    ensures x * y * z == x * z * y
  {
  }

  /** These trades took these lots from the makers, best first, under consecutive numbers. */
  ghost predicate TradesFit(c: MarketConf, o: Order, makers: seq<Order>, x: seq<int>, ts: seq<Trade>, firstId: nat)
  {
    && |ts| <= |makers| == |x|
    && (forall i | |ts| <= i < |x| :: x[i] == 0)
    && forall i | 0 <= i < |ts| ::
         && TradeBetween(c, ts[i], o, makers[i]) && AtLimit(o, ts[i].price)
         && ts[i].amount == x[i] && ts[i].id == firstId + i
         && SnapshotIn(ts[i], makers[i].side) == FirstTime(makers[i])
         && SnapshotIn(ts[i], o.side) == if i == 0 then Some(o) else None
  }

  lemma TradedFits(c: MarketConf, s: Matched, m: Matched, ts: seq<Trade>)
    requires TradedFrom(c, s, m, ts) && s.done == [] && s.taker.finishedBase == 0
    requires m.rest == s.rest[|m.done|..] && forall i | 0 <= i < |m.done| :: Willing(s.taker, s.rest[i])
    ensures |Makers(m)| == |s.rest| && TradesFit(c, s.taker, s.rest, Fills(s.rest, Makers(m)), ts, s.tradeId + 1)
  {
    FillsOfTaken(s.rest, m.done, m.rest);
    var makers := s.rest[..|m.done|];
    assert m.done[0..] == m.done;
    forall i | 0 <= i < |ts|
      ensures TradeAt(c, s.taker, makers, m.done, ts, s.tradeId + 1, i) && makers[i] == s.rest[i] && AtLimit(s.taker, ts[i].price)
    {
    }
  }

  lemma {:induction false} MatchAppends(c: MarketConf, s: Matched, limit: int)
    ensures Match(c, s, limit).Ended? ==> s.events <= Match(c, s, limit).s.events
    decreases |s.rest|
  {
    if Turn(c, s, limit).Go? {
      MatchAppends(c, Turn(c, s, limit).next, limit);
    }
  }

  lemma AfterMatchTrades(c: MarketConf, v: Venue, m: Matched, needCancel: bool)
    ensures var placed := AfterMatch(c, v, m, needCancel);
            && TradesOf(placed.events) == TradesOf(m.events) && m.events <= placed.events
            && placed.venue.counters == v.counters.(tradeId := m.tradeId)
            && placed.venue.book.tradeCount == m.tradeCount && placed.venue.book.price == m.price
  {
    var finish := [OrderEvent(m.taker, FINISH)];
    FinishEventsAreOrders(m.done);
    OrderEventsAreNoTrades(FinishEvents(m.done));
    OrderEventsAreNoTrades(finish);
    TradesConcat(m.events, FinishEvents(m.done));
    TradesConcat(m.events + FinishEvents(m.done), finish);
  }

  lemma MatchIsWilling(c: MarketConf, s: Matched, limit: int, maxId: nat)
    requires LoopOk(c, s, limit, maxId) && Sorted(MakerSide(s), s.rest)
    requires s.done == [] && s.quoteSum == 0 && s.taker.finishedQuote == 0
    ensures Match(c, s, limit).Ended?
    ensures var m := Match(c, s, limit).s;
            && |m.done| <= |s.rest| && m.rest == s.rest[|m.done|..]
            && forall i | 0 <= i < |m.done| :: Willing(s.taker, s.rest[i])
  {
    MatchIsGreedy(c, s, limit, maxId);
    MatchTakes(c, s, limit, maxId);
  }

  /** What the loop tells, when it starts with the taker's PUT alone. */
  ghost predicate LoopTold(c: MarketConf, s: Matched, m: Matched, ts: seq<Trade>)
  {
    && TradesOf(m.events) == ts
    && |Makers(m)| == |s.rest| && TradesFit(c, s.taker, s.rest, Fills(s.rest, Makers(m)), ts, s.tradeId + 1)
    && m.tradeId == s.tradeId + |ts| && m.tradeCount == s.tradeCount + |ts|
    && m.price == (if ts == [] then s.price else ts[|ts| - 1].price)
  }

  lemma PutIsNoTrade(o: Order, step: OrderEventType)
    ensures TradesOf([OrderEvent(o, step)]) == []
  {
    assert [OrderEvent(o, step)][..0] == [];
  }

  lemma TradedIsTold(c: MarketConf, s: Matched, m: Matched, ts: seq<Trade>)
    requires TradedFrom(c, s, m, ts) && s.done == [] && s.taker.finishedBase == 0
    requires m.rest == s.rest[|m.done|..] && forall i | 0 <= i < |m.done| :: Willing(s.taker, s.rest[i])
    requires TradesOf(s.events) == []
    ensures LoopTold(c, s, m, ts)
  {
    TradedFits(c, s, m, ts);
    assert TradesOf(m.events) == ts;
  }

  lemma RunTrades(c: MarketConf, s: Matched, limit: int, maxId: nat) returns (ts: seq<Trade>)
    requires LoopOk(c, s, limit, maxId) && Sorted(MakerSide(s), s.rest)
    requires s.done == [] && s.quoteSum == 0 && s.taker.finishedQuote == 0 && s.taker.finishedBase == 0
    requires s.events == [OrderEvent(s.taker, PUT)]
    ensures Match(c, s, limit).Ended? && LoopTold(c, s, Match(c, s, limit).s, ts)
  {
    MatchIsWilling(c, s, limit, maxId);
    PutIsNoTrade(s.taker, PUT);
    ts := MatchTrades(c, s, limit, maxId);
    TradedIsTold(c, s, Match(c, s, limit).s, ts);
  }

  /** What an order is told of, its numbers and what the market shows of it. */
  ghost predicate ToldOf(c: MarketConf, v: Venue, o: Order, makers: seq<Order>, x: seq<int>, placed: Placed, ts: seq<Trade>)
  {
    && TradesOf(placed.events) == ts
    && placed.events != [] && placed.events[0] == OrderEvent(o, PUT)
    && TradesFit(c, o, makers, x, ts, v.counters.tradeId + 1)
    && placed.venue.counters == Counters(v.counters.orderId + 1, v.counters.tradeId + |ts|, v.counters.operationLogId)
    && placed.venue.book.tradeCount == v.book.tradeCount + |ts|
    && placed.venue.book.price == if ts == [] then v.book.price else ts[|ts| - 1].price
  }

  lemma ToldAfterMatch(c: MarketConf, v: Venue, s: Matched, m: Matched, needCancel: bool, x: seq<int>, ts: seq<Trade>)
    requires LoopTold(c, s, m, ts) && s.events == [OrderEvent(s.taker, PUT)] && s.events <= m.events
    requires s.tradeId == v.counters.tradeId && s.tradeCount == v.book.tradeCount && s.price == v.book.price
    requires |Makers(m)| == |s.rest| && x == Fills(s.rest, Makers(m))
    ensures ToldOf(c, v, s.taker, s.rest, x, AfterMatch(c, NextOrderId(v), m, needCancel), ts)
  {
    AfterMatchTrades(c, NextOrderId(v), m, needCancel);
  }

  /** The trades an accepted order is told of: one with each order it takes from, best first, at that
      order's price and for what it gave up, at the request's limit or better; they are numbered on
      from the last trade, counted, and leave the market's price at the last of theirs. */
  lemma OrderTrades(c: MarketConf, v: Venue, input: OrderInput, user: Uuid) returns (ts: seq<Trade>)
    requires IsAccepted(c, v, input, user)
    ensures ToldOf(c, v, Incoming(c, v, input, user), v.book.Side(Opposite(input.side)), FilledBy(c, v, input, user),
                   PutOrder(c, v, input, user).placed, ts)
  {
    var limit := QuoteLimit(c, v, input, user);
    var s, m := AcceptedEnds(c, v, input, user);
    ts := RunTrades(c, s, limit, v.counters.orderId + 1);
    MatchAppends(c, s, limit);
    AcceptedLeaves(c, v, input, user, s, m);
    FillsShow(c, MakerSide(s), s.rest, m, v.counters.orderId + 1);
    AcceptedIsAfterMatch(c, v, input, user, s, m);
    ToldAfterMatch(c, v, s, m, Match(c, s, limit).needCancel, FilledBy(c, v, input, user), ts);
  }

  // ---------------------------------------------------------------- orders left open

  /** Every maker traded with and left open has been told of, as it is now. */
  ghost predicate OpenAreTold(s: Matched)
  {
    forall i | 0 <= i < |s.done| && s.done[i].remain != 0 :: OrderEvent(s.done[i], UPDATE) in s.events
  }

  lemma AdvanceTells(c: MarketConf, s: Matched, d: Deal, funds: Funds)
    requires s.rest != [] && OpenAreTold(s)
    ensures OpenAreTold(Advance(c, s, d, funds))
  {
    var s' := Advance(c, s, d, funds);
    assert forall e | e in s.events :: e in s'.events;
    forall i | 0 <= i < |s'.done| && s'.done[i].remain != 0
      ensures OrderEvent(s'.done[i], UPDATE) in s'.events
    {
      assert i < |s.done| ==> s'.done[i] == s.done[i];
    }
  }

  lemma {:induction false} MatchTells(c: MarketConf, s: Matched, limit: int)
    requires OpenAreTold(s)
    ensures Match(c, s, limit).Ended? ==> OpenAreTold(Match(c, s, limit).s)
    decreases |s.rest|
  {
    if Turn(c, s, limit).Go? {
      var next := Turn(c, s, limit).next;
      var amount := Choose(c, s.taker, s.rest[0], s.quoteSum, limit).amount;
      AdvanceTells(c, s, MakeDeal(c, s.taker, s.rest[0], amount), next.funds);
      MatchTells(c, next, limit);
    }
  }

  /** A resting order that an accepted order changed and left open is told of as it now is. */
  lemma ChangedAreTold(c: MarketConf, v: Venue, input: OrderInput, user: Uuid, o: Order)
    requires IsAccepted(c, v, input, user)
    requires o in PutOrder(c, v, input, user).placed.venue.book.Side(Opposite(input.side))
    requires o !in v.book.Side(Opposite(input.side))
    ensures OrderEvent(o, UPDATE) in PutOrder(c, v, input, user).placed.events
  {
    var limit := QuoteLimit(c, v, input, user);
    var s, m := AcceptedEnds(c, v, input, user);
    AcceptedLeaves(c, v, input, user, s, m);
    MatchIsWilling(c, s, limit, v.counters.orderId + 1);
    MatchTells(c, s, limit);
    SurvivorsHold(m.done, o);
    AfterMatchTrades(c, NextOrderId(v), m, Match(c, s, limit).needCancel);
    AcceptedIsAfterMatch(c, v, input, user, s, m);
  }
}
