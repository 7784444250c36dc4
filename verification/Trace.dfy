/** What the persistor is told of each order, read back: one PUT, then trades and updates that agree
    with each other, then at most one FINISH and nothing after it.  An order is in the book exactly
    while its trace is open, with just the fills its trades add up to. */
module Trace {
  import opened Types
  import opened Orders
  import opened Ledger
  import opened Matching
  import opened MatchLoop
  import opened MatchShape
  import opened BookInvariant
  import opened VenueInvariant

  /** What a reader of the events knows of one order: the order as it was put, and the sums over its
      trades seen since.  `Broken`: the events make no sense. */
  datatype Life = Unborn | Open(put: Order, trades: nat, base: int, quote: int, fee: int) | Closed | Broken

  /** It is the order that was put, with the fills its trades add up to. */
  predicate Agrees(l: Life, o: Order)
  {
    && l.Open? && SameOrder(l.put, o) && o.remain == l.put.amount - l.base
    && l.base == o.finishedBase && l.quote == o.finishedQuote && l.fee == o.finishedFee
  }

  function AfterOrderEvent(l: Life, o: Order, step: OrderEventType): Life
  {
    match step
    case PUT => if l.Unborn? && Agrees(Open(o, 0, 0, 0, 0), o) then Open(o, 0, 0, 0, 0) else Broken
    case UPDATE => if Agrees(l, o) then l else Broken
    case FINISH => if Agrees(l, o) then Closed else Broken
  }

  function UserIn(t: Trade, side: OrderSide): Uuid
  {
    if side == ASK then t.askUser else t.bidUser
  }

  function FeeIn(t: Trade, side: OrderSide): int
  {
    if side == ASK then t.askFee else t.bidFee
  }

  function SnapshotIn(t: Trade, side: OrderSide): Option<Order>
  {
    if side == ASK then t.askOrder else t.bidOrder
  }

  /** The price is no worse than the order asked for. */
  predicate AtLimit(o: Order, price: int)
  {
    o.kind == LIMIT ==> if o.side == ASK then o.price <= price else price <= o.price
  }

  /** The trade names the user of the order that was put, on its side of its market, within its limit,
      and comes with a snapshot of the order, as it was, exactly when it is the order's first. */
  predicate MayTrade(l: Life, side: OrderSide, t: Trade)
  {
    && l.Open? && l.put.side == side && l.put.user == UserIn(t, side) && l.put.market == t.market
    && AtLimit(l.put, t.price)
    && (SnapshotIn(t, side).Some? <==> l.trades == 0)
    && (SnapshotIn(t, side).Some? ==> SnapshotIn(t, side).value.id == l.put.id && Agrees(l, SnapshotIn(t, side).value))
  }

  function AfterTrade(l: Life, side: OrderSide, t: Trade): Life
  {
    if !MayTrade(l, side, t) then Broken
    else l.(trades := l.trades + 1, base := l.base + t.amount, quote := l.quote + t.quoteAmount, fee := l.fee + FeeIn(t, side))
  }

  function AfterEvent(l: Life, e: Event, id: nat): Life
  {
    match e
    case OrderEvent(o, step) => if o.id == id then AfterOrderEvent(l, o, step) else l
    case TradeEvent(t, _, _) =>
      if t.askOrderId == id then AfterTrade(l, ASK, t)
      else if t.bidOrderId == id then AfterTrade(l, BID, t)
      else l
    case FundsEvent(_, _, _) => l
  }

  /** Reading events one after the other, for one order. */
  function Read(l: Life, events: seq<Event>, id: nat): Life
  {
    if events == [] then l else AfterEvent(Read(l, events[..|events| - 1], id), events[|events| - 1], id)
  }

  lemma {:induction false} ReadConcat(l: Life, e1: seq<Event>, e2: seq<Event>, id: nat)
    ensures Read(l, e1 + e2, id) == Read(Read(l, e1, id), e2, id)
  {
    if e2 == [] {
      assert e1 + e2 == e1;
    } else {
      ReadConcat(l, e1, e2[..|e2| - 1], id);
      assert (e1 + e2)[..|e1 + e2| - 1] == e1 + e2[..|e2| - 1];
    }
  }

  lemma ReadOne(l: Life, e: Event, id: nat)
    ensures Read(l, [e], id) == AfterEvent(l, e, id)
  {
    assert [e][..0] == [];
  }

  /** The order's trace is open, and tells its fills. */
  predicate Alive(l: Life, o: Order)
  {
    Agrees(l, o) && 0 <= o.finishedBase && (l.trades == 0 <==> o.finishedBase == 0)
  }

  // ---------------------------------------------------------------- the loop

  lemma DealReads(c: MarketConf, tradeId: nat, taker: Order, maker: Order, d: Deal, l: Life, id: nat)
    requires taker.side != maker.side && taker.id != maker.id && 0 < d.amount
    requires taker.market == maker.market == c.name && AtLimit(taker, maker.price)
    ensures var l' := Read(l, DealEvents(c, tradeId, taker, maker, d), id);
            && (id == taker.id && Alive(l, taker) ==> Alive(l', AfterDeal(taker, d)))
            && (id == maker.id && Alive(l, maker) ==> Alive(l', MakerAfterDeal(c, maker, d)))
            && (id != taker.id && id != maker.id ==> l' == l)
  {
    var trade := TradeEvent(MakeTrade(c, tradeId, taker, maker, d), c.base, c.quote);
    var maker' := MakerAfterDeal(c, maker, d);
    var last := OrderEvent(maker', UPDATE);
    ReadOne(l, trade, id);
    ReadOne(AfterEvent(l, trade, id), last, id);
    ReadConcat(l, [trade], [last], id);
    assert [trade] + [] == [trade];
    assert DealEvents(c, tradeId, taker, maker, d) == if maker'.remain == 0 then [trade] else [trade] + [last];
  }

  /** A reader of the events so far knows the taker and every maker as they are. */
  ghost predicate Known(l: Life, id: nat, s: Matched)
  {
    && (id == s.taker.id ==> Alive(l, s.taker))
    && KnownIn(l, id, s.done) && KnownIn(l, id, s.rest)
  }

  ghost predicate KnownIn(l: Life, id: nat, s: seq<Order>)
  {
    forall i | 0 <= i < |s| && s[i].id == id :: Alive(l, s[i])
  }

  /** All orders of a run are different ones, and the makers are of the other side. */
  ghost predicate DifferentOrders(s: Matched)
  {
    && DistinctIds(s.done) && DistinctIds(s.rest) && Ids(s.done) !! Ids(s.rest)
    && s.taker.id !in Ids(s.done) + Ids(s.rest)
    && forall i | 0 <= i < |s.rest| :: s.rest[i].side != s.taker.side
  }

  lemma IdsOfParts(s: seq<Order>, o: Order)
    ensures Ids(s + [o]) == Ids(s) + {o.id}
  {
    assert forall i | 0 <= i < |s| :: (s + [o])[i] == s[i];
    assert (s + [o])[|s|] == o;
  }

  lemma IdsOfTail(s: seq<Order>)
    requires s != [] && DistinctIds(s)
    ensures Ids(s[1..]) == Ids(s) - {s[0].id} && DistinctIds(s[1..])
  {
    forall i | 0 < i < |s|
      ensures s[i].id in Ids(s[1..])
    {
      assert s[1..][i - 1] == s[i];
    }
  }

  lemma TurnKeepsDifferent(c: MarketConf, s: Matched, limit: int)
    requires DifferentOrders(s) && Turn(c, s, limit).Go?
    ensures var s' := Turn(c, s, limit).next;
            DifferentOrders(s') && Ids(s'.rest) <= Ids(s.rest) && s'.taker.id == s.taker.id
  {
    var s' := Turn(c, s, limit).next;
    assert s.rest[0].id in Ids(s.rest);
    IdsOfParts(s.done, s'.done[|s.done|]);
    IdsOfTail(s.rest);
  }

  lemma KnownInOneMore(l: Life, id: nat, s: seq<Order>, o: Order)
    requires KnownIn(l, id, s) && (o.id == id ==> Alive(l, o))
    ensures KnownIn(l, id, s + [o])
  {
  }

  /** An event about another order leaves what is known of these. */
  lemma KnownInElsewhere(l: Life, l': Life, id: nat, other: nat, s: seq<Order>)
    requires KnownIn(l, id, s) && other !in Ids(s) && (id != other ==> l' == l)
    ensures KnownIn(l', id, s)
  {
    forall i | 0 <= i < |s| && s[i].id == id
      ensures Alive(l', s[i])
    {
      assert s[i].id in Ids(s);
    }
  }

  lemma KnownStep(l: Life, l': Life, id: nat, s: Matched, taker': Order, maker': Order)
    requires DifferentOrders(s) && s.rest != [] && Known(l, id, s)
    requires taker'.id == s.taker.id && maker'.id == s.rest[0].id
    requires id == s.taker.id ==> Alive(l', taker')
    requires id == s.rest[0].id ==> Alive(l', maker')
    requires id != s.taker.id && id != s.rest[0].id ==> l' == l
    ensures (id == s.taker.id ==> Alive(l', taker')) && KnownIn(l', id, s.done + [maker']) && KnownIn(l', id, s.rest[1..])
  {
    assert s.rest[0].id in Ids(s.rest);
    IdsOfTail(s.rest);
    if id != s.taker.id {
      KnownInElsewhere(l, l', id, s.rest[0].id, s.done);
      KnownInElsewhere(l, l', id, s.rest[0].id, s.rest[1..]);
    } else {
      assert id !in Ids(s.done) && id !in Ids(s.rest[1..]);
      assert forall i | 0 <= i < |s.done| :: s.done[i].id in Ids(s.done);
      assert forall i | 0 <= i < |s.rest[1..]| :: s.rest[1..][i].id in Ids(s.rest[1..]);
    }
    KnownInOneMore(l', id, s.done, maker');
  }

  lemma AdvanceReads(c: MarketConf, s: Matched, d: Deal, funds: Funds, l0: Life, id: nat)
    requires DifferentOrders(s) && s.rest != [] && 0 < d.amount && Known(Read(l0, s.events, id), id, s)
    requires s.taker.market == s.rest[0].market == c.name && AtLimit(s.taker, s.rest[0].price)
    ensures var s' := Advance(c, s, d, funds);
            && Known(Read(l0, s'.events, id), id, s')
            && (id != s.taker.id && id !in Ids(s.rest) ==> Read(l0, s'.events, id) == Read(l0, s.events, id))
  {
    var maker, l := s.rest[0], Read(l0, s.events, id);
    var told := DealEvents(c, s.tradeId + 1, s.taker, maker, d);
    assert maker.id in Ids(s.rest);
    DealReads(c, s.tradeId + 1, s.taker, maker, d, l, id);
    ReadConcat(l0, s.events, told, id);
    KnownStep(l, Read(l, told, id), id, s, AfterDeal(s.taker, d), MakerAfterDeal(c, maker, d));
  }

  lemma TurnReads(c: MarketConf, s: Matched, limit: int, maxId: nat, l0: Life, id: nat)
    requires LoopOk(c, s, limit, maxId) && DifferentOrders(s) && Turn(c, s, limit).Go? && s.taker.market == c.name
    requires Known(Read(l0, s.events, id), id, s)
    ensures var s' := Turn(c, s, limit).next;
            && Known(Read(l0, s'.events, id), id, s')
            && (id != s.taker.id && id !in Ids(s.rest) ==> Read(l0, s'.events, id) == Read(l0, s.events, id))
  {
    TurnKeepsLoop(c, s, limit, maxId);
    DealFits(c, s, limit, maxId);
    TurnGoes(c, s, limit, maxId);
    AdvanceReads(c, s, TurnDeal(c, s, limit), Settle(s.funds, TurnUpdates(c, s, limit)).value, l0, id);
  }

  /** The loop's events agree with what it leaves, order by order, and are about its own orders only. */
  lemma {:induction false} MatchReads(c: MarketConf, s: Matched, limit: int, maxId: nat, l0: Life, id: nat)
    requires LoopOk(c, s, limit, maxId) && DifferentOrders(s) && Known(Read(l0, s.events, id), id, s) && s.taker.market == c.name
    ensures Match(c, s, limit).Ended?
    ensures var m := Match(c, s, limit).s;
            && DifferentOrders(m) && m.taker.id == s.taker.id && Known(Read(l0, m.events, id), id, m)
            && (id != s.taker.id && id !in Ids(s.rest) ==> Read(l0, m.events, id) == Read(l0, s.events, id))
    decreases |s.rest|
  {
    MatchIsSafe(c, s, limit, maxId);
    if Turn(c, s, limit).Go? {
      TurnKeepsLoop(c, s, limit, maxId);
      TurnKeepsDifferent(c, s, limit);
      TurnReads(c, s, limit, maxId, l0, id);
      MatchReads(c, Turn(c, s, limit).next, limit, maxId, l0, id);
    }
  }

  // ---------------------------------------------------------------- after the loop

  ghost predicate FinishedIn(done: seq<Order>, id: nat)
  {
    exists i :: 0 <= i < |done| && done[i].id == id && done[i].remain == 0
  }

  /** The finish events close exactly the traces of the finished makers. */
  lemma {:induction false} FinishesRead(done: seq<Order>, l: Life, id: nat)
    requires DistinctIds(done) && KnownIn(l, id, done)
    ensures Read(l, FinishEvents(done), id) == if FinishedIn(done, id) then Closed else l
  {
    if done != [] {
      var front, last := done[..|done| - 1], done[|done| - 1];
      FinishesRead(front, l, id);
      assert FinishedIn(done, id) <==> FinishedIn(front, id) || (last.id == id && last.remain == 0);
      if last.remain == 0 {
        var e := OrderEvent(last, FINISH);
        ReadConcat(l, FinishEvents(front), [e], id);
        ReadOne(Read(l, FinishEvents(front), id), e, id);
      } else {
        assert FinishEvents(front) + [] == FinishEvents(front);
      }
    }
  }

  /** After an operation: traces of orders in the book are open and agree with them. */
  ghost predicate BookKnown(l: Life, id: nat, b: Book)
  {
    KnownIn(l, id, b.asks) && KnownIn(l, id, b.bids)
  }

  /** How an operation that may have touched these orders changes what is known of one of them. */
  ghost predicate LifeGoesOn(l: Life, l': Life, id: nat, touched: set<nat>, b': Book)
  {
    && BookKnown(l', id, b')
    && (id in touched && id !in BookIds(b') ==> l' == Closed)
    && (id !in touched ==> l' == l)
  }

  lemma {:induction false} SurvivorsHold(done: seq<Order>, o: Order)
    ensures o in Survivors(done) <==> o in done && o.remain != 0
  {
    if done != [] {
      var front, last := done[..|done| - 1], done[|done| - 1];
      SurvivorsHold(front, o);
      assert done == front + [last];
    }
  }

  lemma IdsHold(s: seq<Order>, id: nat)
    ensures id in Ids(s) <==> exists o :: o in s && o.id == id
  {
    if o :| o in s && o.id == id {
      var i :| 0 <= i < |s| && s[i] == o;
      assert s[i].id in Ids(s);
    }
    if id in Ids(s) {
      var i :| 0 <= i < |s| && s[i].id == id;
      assert s[i] in s;
    }
  }

  lemma IdsOfConcat(s: seq<Order>, t: seq<Order>)
    ensures Ids(s + t) == Ids(s) + Ids(t)
  {
    assert forall i | 0 <= i < |s| :: (s + t)[i] == s[i];
    assert forall i | 0 <= i < |t| :: (s + t)[|s| + i] == t[i];
  }

  /** A maker survives or is finished, never both. */
  lemma SurvivesOrFinishes(done: seq<Order>, id: nat)
    requires DistinctIds(done)
    ensures id in Ids(Survivors(done)) <==> id in Ids(done) && !FinishedIn(done, id)
  {
    IdsHold(done, id);
    IdsHold(Survivors(done), id);
    if o :| o in Survivors(done) && o.id == id {
      SurvivorsHold(done, o);
    }
    if id in Ids(done) && !FinishedIn(done, id) {
      var i :| 0 <= i < |done| && done[i].id == id;
      SurvivorsHold(done, done[i]);
    }
  }

  lemma KnownInSurvivors(l: Life, id: nat, done: seq<Order>)
    requires KnownIn(l, id, done)
    ensures KnownIn(l, id, Survivors(done))
  {
    forall i | 0 <= i < |Survivors(done)| && Survivors(done)[i].id == id
      ensures Alive(l, Survivors(done)[i])
    {
      SurvivorsHold(done, Survivors(done)[i]);
    }
  }

  lemma KnownInConcat(l: Life, id: nat, s: seq<Order>, t: seq<Order>)
    requires KnownIn(l, id, s) && KnownIn(l, id, t)
    ensures KnownIn(l, id, s + t)
  {
  }

  lemma KnownNowhere(l: Life, id: nat, s: seq<Order>)
    requires id !in Ids(s)
    ensures KnownIn(l, id, s)
  {
    assert forall i | 0 <= i < |s| :: s[i].id in Ids(s);
  }

  /** The counter side when the finished makers have been told to be finished. */
  lemma CounterReads(l: Life, id: nat, done: seq<Order>, rest: seq<Order>)
    requires DistinctIds(done) && Ids(done) !! Ids(rest) && KnownIn(l, id, done) && KnownIn(l, id, rest)
    ensures var l' := Read(l, FinishEvents(done), id);
            && KnownIn(l', id, Survivors(done) + rest)
            && (id in Ids(done) + Ids(rest) && id !in Ids(Survivors(done) + rest) ==> l' == Closed)
            && (id !in Ids(done) ==> l' == l)
            && Ids(Survivors(done) + rest) <= Ids(done) + Ids(rest)
  {
    var l' := Read(l, FinishEvents(done), id);
    FinishesRead(done, l, id);
    forall x
      ensures x in Ids(Survivors(done)) <==> x in Ids(done) && !FinishedIn(done, x)
    {
      SurvivesOrFinishes(done, x);
    }
    IdsOfConcat(Survivors(done), rest);
    if FinishedIn(done, id) {
      assert id in Ids(done);
      KnownNowhere(l', id, Survivors(done));
      KnownNowhere(l', id, rest);
    } else {
      KnownInSurvivors(l, id, done);
    }
    KnownInConcat(l', id, Survivors(done), rest);
  }

  lemma InsertedKnown(l: Life, id: nat, side: OrderSide, s: seq<Order>, o: Order)
    requires KnownIn(l, id, s) && (o.id == id ==> Alive(l, o))
    ensures KnownIn(l, id, Insert(side, s, o)) && Ids(Insert(side, s, o)) == Ids(s) + {o.id}
  {
    var i := InsertSplits(side, s, o);
    KnownInOneMore(l, id, s[..i], o);
    KnownInConcat(l, id, s[..i] + [o], s[i..]);
    IdsOfConcat(s[..i], s[i..]);
    IdsOfConcat(s[..i] + [o], s[i..]);
    IdsOfParts(s[..i], o);
    assert s[..i] + s[i..] == s;
  }

  /** A taker that rests: no event, and its place in the book. */
  lemma RestingReads(c: MarketConf, v: Venue, m: Matched, needCancel: bool, l1: Life, id: nat)
    requires Rests(m, needCancel) && (id == m.taker.id ==> Alive(l1, m.taker))
    requires KnownIn(l1, id, v.book.Side(m.taker.side)) && KnownIn(l1, id, Survivors(m.done) + m.rest)
    ensures var placed := AfterMatch(c, v, m, needCancel);
            && placed.events == m.events + FinishEvents(m.done) && BookKnown(l1, id, placed.venue.book)
            && BookIds(placed.venue.book) == Ids(v.book.Side(m.taker.side)) + Ids(Survivors(m.done) + m.rest) + {m.taker.id}
  {
    InsertedKnown(l1, id, m.taker.side, v.book.Side(m.taker.side), WithBacking(c, m.taker));
  }

  /** A taker that does not rest: one event more, and no place in the book. */
  lemma EndingReads(c: MarketConf, v: Venue, m: Matched, needCancel: bool, l1: Life, id: nat)
    requires !Rests(m, needCancel) && (id == m.taker.id ==> Alive(l1, m.taker))
    requires KnownIn(l1, id, v.book.Side(m.taker.side)) && KnownIn(l1, id, Survivors(m.done) + m.rest)
    requires m.taker.id !in Ids(v.book.Side(m.taker.side)) + Ids(Survivors(m.done) + m.rest)
    ensures var placed, e := AfterMatch(c, v, m, needCancel), OrderEvent(m.taker, FINISH);
            && placed.events == m.events + FinishEvents(m.done) + [e] && BookKnown(AfterEvent(l1, e, id), id, placed.venue.book)
            && BookIds(placed.venue.book) == Ids(v.book.Side(m.taker.side)) + Ids(Survivors(m.done) + m.rest)
            && (id == m.taker.id ==> AfterEvent(l1, e, id) == Closed)
  {
    if id == m.taker.id {
      KnownNowhere(Closed, id, v.book.Side(m.taker.side));
      KnownNowhere(Closed, id, Survivors(m.done) + m.rest);
    }
  }

  /** The last event of a taker that does not rest, and none for one that does. */
  lemma TakerEnds(c: MarketConf, v: Venue, m: Matched, needCancel: bool, l: Life, id: nat)
    requires var l1 := Read(l, m.events + FinishEvents(m.done), id);
             && (id == m.taker.id ==> Alive(l1, m.taker))
             && KnownIn(l1, id, v.book.Side(m.taker.side)) && KnownIn(l1, id, Survivors(m.done) + m.rest)
    requires m.taker.id !in Ids(v.book.Side(m.taker.side)) + Ids(Survivors(m.done) + m.rest)
    ensures var l1 := Read(l, m.events + FinishEvents(m.done), id);
            var placed := AfterMatch(c, v, m, needCancel);
            var l' := Read(l, placed.events, id);
            && BookKnown(l', id, placed.venue.book)
            && (id == m.taker.id && id !in BookIds(placed.venue.book) ==> l' == Closed)
            && (id != m.taker.id ==> l' == l1)
            && BookIds(placed.venue.book)
               == Ids(v.book.Side(m.taker.side)) + Ids(Survivors(m.done) + m.rest) + if Rests(m, needCancel) then {m.taker.id} else {}
  {
    var l1 := Read(l, m.events + FinishEvents(m.done), id);
    if Rests(m, needCancel) {
      RestingReads(c, v, m, needCancel, l1, id);
    } else {
      EndingReads(c, v, m, needCancel, l1, id);
      ReadConcat(l, m.events + FinishEvents(m.done), [OrderEvent(m.taker, FINISH)], id);
      ReadOne(l1, OrderEvent(m.taker, FINISH), id);
    }
  }

  /** An order as it is before it is executed. */
  predicate Unfilled(o: Order)
  {
    o.finishedBase == 0 && o.finishedQuote == 0 && o.finishedFee == 0 && o.remain == o.amount
  }

  lemma StartsDifferent(c: MarketConf, v: Venue, taker: Order, limit: int)
    requires Ready(c, v, taker, limit)
    ensures DifferentOrders(Start(taker, v.book.Side(Opposite(taker.side)), v))
    ensures taker.id !in BookIds(v.book) && Ids(v.book.asks) !! Ids(v.book.bids)
  {
    assert BookOk(c, v.book, v.counters.orderId);
  }

  /** The start of a run: the taker's trace begins, and the makers are known already. */
  lemma StartReads(taker: Order, makers: seq<Order>, v: Venue, l: Life, id: nat)
    requires Unfilled(taker) && KnownIn(l, id, makers) && taker.id !in Ids(makers) && (id == taker.id ==> l == Unborn)
    ensures var s := Start(taker, makers, v);
            Known(Read(l, s.events, id), id, s) && (id != taker.id ==> Read(l, s.events, id) == l)
  {
    ReadOne(l, OrderEvent(taker, PUT), id);
    if id == taker.id {
      KnownNowhere(Read(l, [OrderEvent(taker, PUT)], id), id, makers);
    }
  }

  lemma TouchedByMatch(s: Matched, m: Matched)
    requires s.done == [] && Took(s, m)
    ensures Ids(m.done) + Ids(m.rest) == Ids(s.rest)
  {
    var n := |m.done|;
    forall i | 0 <= i < n
      ensures m.done[i].id == s.rest[i].id
    {
      assert SameOrder(s.rest[i], m.done[i]);
    }
    assert forall i | n <= i < |s.rest| :: s.rest[i] == m.rest[i - n];
  }

  /** Executing an order tells a consistent story of every order it touches, and of no other. */
  lemma ExecuteReads(c: MarketConf, v: Venue, taker: Order, limit: int, l: Life, id: nat)
    requires Ready(c, v, taker, limit) && Unfilled(taker) && BookKnown(l, id, v.book) && (id == taker.id ==> l == Unborn)
    ensures Execute(c, v, taker, limit).Some?
    ensures var placed := Execute(c, v, taker, limit).value;
            LifeGoesOn(l, Read(l, placed.events, id), id, BookIds(v.book) + {taker.id}, placed.venue.book)
  {
    var side := taker.side;
    var own, makers := v.book.Side(side), v.book.Side(Opposite(side));
    var s := Start(taker, makers, v);
    StartIsLoopOk(c, v, taker, limit);
    StartsDifferent(c, v, taker, limit);
    StartReads(taker, makers, v, l, id);
    MatchReads(c, s, limit, taker.id, l, id);
    MatchTakes(c, s, limit, taker.id);
    var Ended(m, needCancel) := Match(c, s, limit);
    TouchedByMatch(s, m);
    MatchedReads(c, v, m, needCancel, l, id);
  }

  lemma MatchedReads(c: MarketConf, v: Venue, m: Matched, needCancel: bool, l: Life, id: nat)
    requires var own, makers := v.book.Side(m.taker.side), v.book.Side(Opposite(m.taker.side));
             && Ids(m.done) + Ids(m.rest) == Ids(makers) && Ids(own) !! Ids(makers)
             && m.taker.id !in Ids(own) + Ids(makers) && DifferentOrders(m) && KnownIn(l, id, own)
             && Known(Read(l, m.events, id), id, m)
             && (id != m.taker.id && id !in Ids(makers) ==> Read(l, m.events, id) == l)
    ensures var placed := AfterMatch(c, v, m, needCancel);
            LifeGoesOn(l, Read(l, placed.events, id), id, BookIds(v.book) + {m.taker.id}, placed.venue.book)
  {
    var own, makers := v.book.Side(m.taker.side), v.book.Side(Opposite(m.taker.side));
    var l1 := Read(l, m.events, id);
    var l2 := Read(l, m.events + FinishEvents(m.done), id);
    CounterReads(l1, id, m.done, m.rest);
    ReadConcat(l, m.events, FinishEvents(m.done), id);
    if id in Ids(own) {
      assert l2 == l;
    } else {
      KnownNowhere(l2, id, own);
    }
    TakerEnds(c, v, m, needCancel, l, id);
  }
}
