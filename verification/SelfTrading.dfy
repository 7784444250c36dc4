/** Users trading with themselves: where the settings allow it, placing an order panics, and exactly
    when. */
module SelfTrading {
  import opened Types
  import opened Orders
  import opened Ledger
  import opened Matching
  import opened Settlement
  import opened MatchLoop
  import opened BookInvariant
  import opened VenueInvariant

  /** The same settings with self-trading disabled. */
  function On(c: MarketConf): MarketConf
  {
    c.(disableSelfTrade := true)
  }

  /** The loop has come to a maker of the taker's own user that it would trade a lot with. */
  predicate MeetsSelf(m: Matched, limit: int)
  {
    && m.rest != [] && m.taker.remain != 0 && (m.taker.kind == LIMIT ==> Crosses(m.taker, m.rest[0]))
    && !m.taker.postOnly && m.taker.user == m.rest[0].user
    && DealAmount(m.taker, m.rest[0], m.quoteSum, limit) != 0
  }

  lemma ChoiceFollows(c: MarketConf, s: Matched, limit: int)
    requires s.rest != [] && 0 < s.rest[0].remain && 0 <= s.taker.remain && !c.disableSelfTrade
    ensures var on, off := Choose(On(c), s.taker, s.rest[0], s.quoteSum, limit), Choose(c, s.taker, s.rest[0], s.quoteSum, limit);
            if MeetsSelf(s, limit) then on == CancelHere && off == TradeHere(DealAmount(s.taker, s.rest[0], s.quoteSum, limit))
            else off == on || (s.taker.kind == MARKET && on == CancelHere && off == StopHere)
  {
  }

  /** Nothing of a trade depends on the flag. */
  lemma SameTrade(c: MarketConf, s: Matched, amount: int, funds: Funds)
    requires s.rest != []
    ensures MakeDeal(On(c), s.taker, s.rest[0], amount) == MakeDeal(c, s.taker, s.rest[0], amount)
    ensures var d := MakeDeal(c, s.taker, s.rest[0], amount);
            && DealUpdates(On(c), s.taker, s.rest[0], d, s.tradeId + 1) == DealUpdates(c, s.taker, s.rest[0], d, s.tradeId + 1)
            && Advance(On(c), s, d, funds) == Advance(c, s, d, funds)
  {
  }

  lemma TurnTrades(c: MarketConf, s: Matched, limit: int, amount: int, settled: Result<Funds, UpdateError>)
    requires s.rest != [] && Choose(c, s.taker, s.rest[0], s.quoteSum, limit) == TradeHere(amount)
    requires settled == Settle(s.funds, DealUpdates(c, s.taker, s.rest[0], MakeDeal(c, s.taker, s.rest[0], amount), s.tradeId + 1))
    ensures Turn(c, s, limit)
         == if settled.Err? then Panic else Go(Advance(c, s, MakeDeal(c, s.taker, s.rest[0], amount), settled.value))
  {
  }

  lemma SameChoiceSameTurn(c: MarketConf, s: Matched, limit: int)
    requires s.rest != []
    requires Choose(On(c), s.taker, s.rest[0], s.quoteSum, limit) == Choose(c, s.taker, s.rest[0], s.quoteSum, limit)
    ensures Turn(c, s, limit) == Turn(On(c), s, limit)
  {
    match Choose(c, s.taker, s.rest[0], s.quoteSum, limit)
    case TradeHere(amount) =>
      var settled := Settle(s.funds, DealUpdates(c, s.taker, s.rest[0], MakeDeal(c, s.taker, s.rest[0], amount), s.tradeId + 1));
      SameTrade(c, s, amount, if settled.Ok? then settled.value else s.funds);
      TurnTrades(c, s, limit, amount, settled);
      TurnTrades(On(c), s, limit, amount, settled);
    case _ =>
  }

  /** Without the flag the loop takes the same turns, until it meets the taker's own order. */
  lemma TurnsFollow(c: MarketConf, s: Matched, limit: int, maxId: nat)
    requires LoopOk(On(c), s, limit, maxId) && !c.disableSelfTrade
    ensures if MeetsSelf(s, limit) then Turn(On(c), s, limit) == Cancel && Turn(c, s, limit) == Panic
            else Turn(c, s, limit) == Turn(On(c), s, limit)
                 || (s.taker.kind == MARKET && Turn(On(c), s, limit) == Cancel && Turn(c, s, limit) == Stop)
  {
    if s.rest != [] {
      ChoiceFollows(c, s, limit);
      if MeetsSelf(s, limit) {
        SelfDealNeverSettles(c, s.funds, s.taker, s.rest[0], TurnDeal(c, s, limit), s.tradeId + 1);
      } else if Choose(On(c), s.taker, s.rest[0], s.quoteSum, limit) == Choose(c, s.taker, s.rest[0], s.quoteSum, limit) {
        SameChoiceSameTurn(c, s, limit);
      }
    }
  }

  /** The loop panics exactly when, with the flag on, it would be cancelled at the taker's own order
      for a trade of at least one lot; and otherwise it ends in the same state. */
  lemma {:induction false} LoopFollows(c: MarketConf, s: Matched, limit: int, maxId: nat)
    requires LoopOk(On(c), s, limit, maxId) && !c.disableSelfTrade
    ensures Match(On(c), s, limit).Ended?
    ensures var on := Match(On(c), s, limit);
            && (Match(c, s, limit).Panicked? <==> on.needCancel && MeetsSelf(on.s, limit))
            && (Match(c, s, limit).Ended? ==>
                  Match(c, s, limit) == on || (on.s.taker.kind == MARKET && Match(c, s, limit) == Ended(on.s, false)))
    decreases |s.rest|
  {
    TurnsFollow(c, s, limit, maxId);
    TurnKeepsLoop(On(c), s, limit, maxId);
    MatchIsSafe(On(c), s, limit, maxId);
    if Turn(On(c), s, limit).Go? {
      LoopFollows(c, Turn(On(c), s, limit).next, limit, maxId);
    }
  }

  /** The matching run that placing this order starts. */
  function RunOf(c: MarketConf, v: Venue, input: OrderInput, user: Uuid): Outcome
  {
    var next := NextOrderId(v);
    var taker := NewOrder(c, next.counters.orderId, input, user);
    Match(c, Start(taker, next.book.Side(Opposite(input.side)), next), QuoteLimit(c, v, input, user))
  }

  /** With self-trading disabled, the order would be cancelled at one of its user's own. */
  predicate WouldMeetSelf(c: MarketConf, v: Venue, input: OrderInput, user: Uuid)
  {
    var on := RunOf(On(c), v, input, user);
    on.Ended? && on.needCancel && MeetsSelf(on.s, QuoteLimit(c, v, input, user))
  }

  lemma SameChecks(c: MarketConf, v: Venue, input: OrderInput, user: Uuid, id: nat)
    ensures Refusal(On(c), v, input, user) == Refusal(c, v, input, user)
    ensures QuoteLimit(On(c), v, input, user) == QuoteLimit(c, v, input, user)
    ensures NewOrder(On(c), id, input, user) == NewOrder(c, id, input, user)
  {
  }

  lemma AdmittedIsRun(c: MarketConf, v: Venue, input: OrderInput, user: Uuid)
    ensures Admit(c, v, input, user)
         == match RunOf(c, v, input, user)
            case Panicked => None
            case Ended(m, needCancel) => Some(AfterMatch(c, NextOrderId(v), m, needCancel))
  {
  }

  /** What a market order leaves does not depend on how its run ended, nor on the flag. */
  lemma SameAfter(c: MarketConf, v: Venue, m: Matched, needCancel: bool)
    ensures AfterMatch(On(c), v, m, needCancel) == AfterMatch(c, v, m, needCancel)
    ensures m.taker.kind == MARKET ==> AfterMatch(c, v, m, needCancel) == AfterMatch(c, v, m, false)
  {
  }

  /** Placing an order panics exactly when users may trade with themselves and, if they might not,
      this order would be cancelled at one of its user's own that it could trade at least a lot
      with; in every other case it does just what it does with self-trading disabled. */
  lemma SelfTradeCrashes(c: MarketConf, v: Venue, input: OrderInput, user: Uuid)
    requires VenueSound(c, v) && Sensible(input)
    ensures PutOrder(c, v, input, user).Crashed?
       <==> !c.disableSelfTrade && Refusal(c, v, input, user).None? && WouldMeetSelf(c, v, input, user)
    ensures !PutOrder(c, v, input, user).Crashed? ==> PutOrder(c, v, input, user) == PutOrder(On(c), v, input, user)
  {
    SameChecks(c, v, input, user, v.counters.orderId + 1);
    if c.disableSelfTrade {
      assert On(c) == c;
      PutOrderIsSafe(c, v, input, user);
    } else if Refusal(c, v, input, user).None? {
      AdmitFollows(c, v, input, user);
    }
  }

  lemma AdmitFollows(c: MarketConf, v: Venue, input: OrderInput, user: Uuid)
    requires VenueSound(c, v) && Sensible(input) && !c.disableSelfTrade && Refusal(c, v, input, user).None?
    ensures Admit(c, v, input, user).None? <==> WouldMeetSelf(c, v, input, user)
    ensures Admit(c, v, input, user).Some? ==> Admit(c, v, input, user) == Admit(On(c), v, input, user)
  {
    SameChecks(c, v, input, user, v.counters.orderId + 1);
    AdmittedIsReady(On(c), v, input, user);
    StartIsLoopOk(On(c), NextOrderId(v), NewOrder(c, v.counters.orderId + 1, input, user), QuoteLimit(c, v, input, user));
    RunFollows(c, v, input, user);
    AdmittedIsRun(c, v, input, user);
    AdmittedIsRun(On(c), v, input, user);
    var on := RunOf(On(c), v, input, user);
    SameAfter(c, NextOrderId(v), on.s, on.needCancel);
  }

  lemma RunFollows(c: MarketConf, v: Venue, input: OrderInput, user: Uuid)
    requires !c.disableSelfTrade
    requires var next := NextOrderId(v);
             var taker := NewOrder(c, next.counters.orderId, input, user);
             LoopOk(On(c), Start(taker, next.book.Side(Opposite(input.side)), next), QuoteLimit(c, v, input, user), next.counters.orderId)
    ensures var on := RunOf(On(c), v, input, user);
            && on.Ended?
            && (RunOf(c, v, input, user).Panicked? <==> WouldMeetSelf(c, v, input, user))
            && (RunOf(c, v, input, user).Ended? ==>
                  RunOf(c, v, input, user) == on || (on.s.taker.kind == MARKET && RunOf(c, v, input, user) == Ended(on.s, false)))
  {
    var next := NextOrderId(v);
    var taker := NewOrder(c, next.counters.orderId, input, user);
    SameChecks(c, v, input, user, next.counters.orderId);
    LoopFollows(c, Start(taker, next.book.Side(Opposite(input.side)), next), QuoteLimit(c, v, input, user), next.counters.orderId);
  }

  /** It is enough that the best counter order is the user's own and the prices meet. */
  lemma OwnOrderFirst(c: MarketConf, v: Venue, input: OrderInput, user: Uuid)
    requires VenueSound(c, v) && Sensible(input) && !c.disableSelfTrade && Refusal(c, v, input, user).None?
    requires var next := NextOrderId(v);
             var s := Start(NewOrder(c, next.counters.orderId, input, user), next.book.Side(Opposite(input.side)), next);
             MeetsSelf(s, QuoteLimit(c, v, input, user))
    ensures PutOrder(c, v, input, user).Crashed?
  {
    var next := NextOrderId(v);
    var s := Start(NewOrder(c, next.counters.orderId, input, user), next.book.Side(Opposite(input.side)), next);
    var limit := QuoteLimit(c, v, input, user);
    SameChecks(c, v, input, user, next.counters.orderId);
    assert v.book.Side(Opposite(input.side))[0].remain > 0;
    ChoiceFollows(c, s, limit);
    assert Turn(On(c), s, limit) == Cancel;
    assert RunOf(On(c), v, input, user) == Match(On(c), s, limit) == Ended(s, true);
    SelfTradeCrashes(c, v, input, user);
  }

  // ---------------------------------------------------------------- one such input

  const LAX: MarketConf := MarketConf(0, 1, 2, 0, 0, 1, 1, 1, 1, 1, false, false)

  function OwnBid(user: Uuid): Order
  {
    Order(1, 0, LIMIT, BID, user, false, 5, 1, 0, 0, 1, 5, 0, 0, 0)
  }

  /** The user holds one lot of base and has one bid, for one lot at price 5, in the book. */
  function OwnBook(user: Uuid): Venue
  {
    Venue(Book([], [OwnBid(user)], 0, 0),
          Funds(map[BalanceKey(user, AVAILABLE, 1) := 1, BalanceKey(user, FREEZE, 2) := 5], {}), Counters(1, 0, 0))
  }

  lemma OwnBookIsSound(user: Uuid)
    ensures VenueSound(LAX, OwnBook(user))
  {
    var v := OwnBook(user);
    assert Working(LAX, BID, OwnBid(user), 1);
    assert BookOk(LAX, v.book, 1);
    forall u, a
      ensures BookFrozen(LAX, v.book, u, a) <= Get(v.funds.balances, BalanceKey(u, FREEZE, a))
    {
      FrozenOfOne(OwnBid(user), u);
    }
  }

  /** The user now asks for the same price: the request passes every check, and the engine panics. */
  lemma SelfTradeInput(user: Uuid)
    ensures VenueSound(LAX, OwnBook(user))
    ensures PutOrder(LAX, OwnBook(user), OrderInput(ASK, LIMIT, 1, 5, 0, 0, 0, false), user).Crashed?
  {
    OwnBookIsSound(user);
    OwnOrderFirst(LAX, OwnBook(user), OrderInput(ASK, LIMIT, 1, 5, 0, 0, 0, false), user);
  }
}
