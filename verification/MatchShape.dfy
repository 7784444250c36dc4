/** The shape of a matching run: makers are taken strictly in price-time order, each is emptied
    before the next is touched, and the loop stops only when nothing more may be traded. */
module MatchShape {
  import opened Types
  import opened Orders
  import opened Ledger
  import opened Matching
  import opened MatchLoop

  /** The same order, apart from what trades change. */
  predicate SameOrder(o: Order, p: Order)
  {
    p == o.(remain := p.remain, frozen := p.frozen, finishedBase := p.finishedBase,
            finishedQuote := p.finishedQuote, finishedFee := p.finishedFee)
  }

  ghost predicate AllFinished(s: seq<Order>)
  {
    forall i | 0 <= i < |s| :: s[i].remain == 0
  }

  function Last(s: seq<Order>): Order
    requires s != []
  {
    s[|s| - 1]
  }

  /** A maker that a turn leaves open is the last one the taker can trade with. */
  lemma OpenMakerStopsLoop(c: MarketConf, s: Matched, limit: int, maxId: nat)
    requires LoopOk(c, s, limit, maxId) && Sorted(MakerSide(s), s.rest)
    requires Turn(c, s, limit).Go?
    requires Last(Turn(c, s, limit).next.done).remain != 0
    ensures !Turn(c, s, limit).Panic?
    ensures LoopOk(c, Turn(c, s, limit).next, limit, maxId)
    ensures !Turn(c, Turn(c, s, limit).next, limit).Go?
    ensures TakerSpent(Turn(c, s, limit).next.taker)
  {
    TurnKeepsLoop(c, s, limit, maxId);
    DealFits(c, s, limit, maxId);
    var s', maker := Turn(c, s, limit).next, s.rest[0];
    if s'.taker.remain != 0 && s'.rest != [] {
      var room := limit - s.quoteSum;
      assert TurnDeal(c, s, limit).amount == room / maker.price;
      assert Before(MakerSide(s), KeyOf(s.rest[0]), KeyOf(s.rest[1]));
      var next := s'.rest[0];
      assert next == s.rest[1] && maker.price <= next.price;
      RoomRunsOut(room, maker.price, next.price, Min(s'.taker.remain, next.remain));
      assert DealAmount(s'.taker, next, s'.quoteSum, limit) == 0;
    }
  }

  lemma RoomRunsOut(room: int, price: int, price': int, a: int)
    requires 0 < price <= price' && 0 <= room && 0 < a
    ensures room - price * (room / price) < price' * a
    ensures (room - price * (room / price)) / price' == 0
  {
    var left := room - price * (room / price);
    assert 0 <= left < price;
    ProductMonotone(1, a, price');
  }

  /** `m` is reached from `s` by taking makers from the front of `rest`. */
  ghost predicate Took(s: Matched, m: Matched)
  {
    && SameOrder(s.taker, m.taker) && m.taker.frozen == s.taker.frozen
    && |s.done| <= |m.done| && m.done[..|s.done|] == s.done
    && |m.done| - |s.done| <= |s.rest| && m.rest == s.rest[|m.done| - |s.done|..]
    && forall i | |s.done| <= i < |m.done| :: SameOrder(s.rest[i - |s.done|], m.done[i])
  }

  lemma TookThenTook(s: Matched, s': Matched, m: Matched)
    requires Took(s, s') && Took(s', m)
    ensures Took(s, m)
  {
    assert m.done[..|s.done|] == m.done[..|s'.done|][..|s.done|];
    forall i | |s.done| <= i < |m.done|
      ensures SameOrder(s.rest[i - |s.done|], m.done[i])
    {
      if i < |s'.done| {
        assert m.done[i] == m.done[..|s'.done|][i];
      } else {
        assert s'.rest[i - |s'.done|] == s.rest[i - |s.done|];
      }
    }
  }

  lemma TurnTakes(c: MarketConf, s: Matched, limit: int, maxId: nat)
    requires LoopOk(c, s, limit, maxId)
    ensures !Turn(c, s, limit).Panic?
    ensures Turn(c, s, limit).Go? ==> Took(s, Turn(c, s, limit).next) && LoopOk(c, Turn(c, s, limit).next, limit, maxId)
  {
    TurnKeepsLoop(c, s, limit, maxId);
  }

  lemma TookNothing(s: Matched)
    ensures Took(s, s)
  {
  }

  lemma {:induction false} MatchTakes(c: MarketConf, s: Matched, limit: int, maxId: nat)
    requires LoopOk(c, s, limit, maxId)
    ensures Match(c, s, limit).Ended?
    ensures Took(s, Match(c, s, limit).s)
    decreases |s.rest|
  {
    TurnTakes(c, s, limit, maxId);
    if Turn(c, s, limit).Go? {
      MatchTakes(c, Turn(c, s, limit).next, limit, maxId);
      TookThenTook(s, Turn(c, s, limit).next, Match(c, s, limit).s);
    } else {
      TookNothing(s);
    }
  }

  /** Of the makers traded with from `s` to `m`, all but the last are finished; the last can stay
      open only when the taker is filled or is a market bid out of budget. */
  ghost predicate Emptied(s: Matched, m: Matched)
  {
    && |s.done| <= |m.done|
    && (forall i | |s.done| <= i < |m.done| - 1 :: m.done[i].remain == 0)
    && (|s.done| < |m.done| && Last(m.done).remain != 0 ==> TakerSpent(m.taker))
  }

  predicate TakerSpent(t: Order)
  {
    t.remain == 0 || (t.kind == MARKET && !t.IsAsk())
  }

  lemma EmptiedStep(s: Matched, s': Matched, m: Matched)
    requires |s'.done| == |s.done| + 1
    requires Took(s', m) && Emptied(s', m)
    requires Last(s'.done).remain != 0 ==> m == s' && TakerSpent(m.taker)
    ensures Emptied(s, m)
  {
    assert m.done[|s.done|] == m.done[..|s'.done|][|s.done|] == Last(s'.done);
  }

  /** The turn that leaves a maker open is the loop's last. */
  lemma OpenMakerEndsMatch(c: MarketConf, s: Matched, limit: int, maxId: nat)
    requires LoopOk(c, s, limit, maxId) && Sorted(MakerSide(s), s.rest)
    requires Turn(c, s, limit).Go? && Last(Turn(c, s, limit).next.done).remain != 0
    ensures var s' := Turn(c, s, limit).next; Match(c, s, limit).Ended? && Match(c, s, limit).s == s' && TakerSpent(s'.taker)
  {
    OpenMakerStopsLoop(c, s, limit, maxId);
    TurnKeepsLoop(c, Turn(c, s, limit).next, limit, maxId);
  }

  lemma {:induction false} MatchEmptiesInOrder(c: MarketConf, s: Matched, limit: int, maxId: nat)
    requires LoopOk(c, s, limit, maxId) && Sorted(MakerSide(s), s.rest)
    ensures Match(c, s, limit).Ended?
    ensures Emptied(s, Match(c, s, limit).s)
    decreases |s.rest|
  {
    MatchTakes(c, s, limit, maxId);
    TurnKeepsLoop(c, s, limit, maxId);
    if Turn(c, s, limit).Go? {
      var s' := Turn(c, s, limit).next;
      MatchEmptiesInOrder(c, s', limit, maxId);
      MatchTakes(c, s', limit, maxId);
      if Last(s'.done).remain != 0 {
        OpenMakerEndsMatch(c, s, limit, maxId);
      }
      EmptiedStep(s, s', Match(c, s, limit).s);
    }
  }

  /** When the loop ends without a cancellation, either nothing is left to trade with, the taker is
      filled, a limit taker's price is no longer met, or a market bid cannot buy one more lot. */
  lemma {:induction false} MatchStopsForReason(c: MarketConf, s: Matched, limit: int, maxId: nat)
    requires LoopOk(c, s, limit, maxId)
    ensures Match(c, s, limit).Ended?
    ensures var Ended(m, needCancel) := Match(c, s, limit);
            && (!needCancel ==>
                  || m.rest == [] || m.taker.remain == 0
                  || (m.taker.kind == LIMIT && !Crosses(m.taker, m.rest[0]))
                  || (m.taker.kind == MARKET && !m.taker.IsAsk() && limit - m.quoteSum < m.rest[0].price))
            && (needCancel ==>
                  && m.rest != [] && m.taker.remain != 0
                  && (m.taker.kind == LIMIT ==> Crosses(m.taker, m.rest[0]))
                  && (m.taker.postOnly || m.taker.user == m.rest[0].user))
    decreases |s.rest|
  {
    MatchIsSafe(c, s, limit, maxId);
    TurnKeepsLoop(c, s, limit, maxId);
    if Turn(c, s, limit).Go? {
      MatchStopsForReason(c, Turn(c, s, limit).next, limit, maxId);
    } else if Turn(c, s, limit).Stop? && s.rest != [] && s.taker.remain != 0 {
      if !(s.taker.kind == LIMIT && !Crosses(s.taker, s.rest[0])) {
        var a := Min(s.taker.remain, s.rest[0].remain);
        assert DealAmount(s.taker, s.rest[0], s.quoteSum, limit) == 0 && a != 0;
        if limit - s.quoteSum >= s.rest[0].price {
          QuotientAtLeastOne(limit - s.quoteSum, s.rest[0].price);
        }
      }
    }
  }

  lemma QuotientAtLeastOne(x: int, y: int)
    requires 0 < y <= x
    ensures 1 <= x / y
  {
  }

  lemma {:induction false} SurvivorsOfFinished(s: seq<Order>)
    requires AllFinished(s)
    ensures Survivors(s) == []
  {
    if s != [] {
      SurvivorsOfFinished(s[..|s| - 1]);
    }
  }

  /** How many makers leave the book: all that were traded with, but for an open last one. */
  function FinishedCount(done: seq<Order>): (n: nat)
    ensures n <= |done|
  {
    if done != [] && Last(done).remain != 0 then |done| - 1 else |done|
  }

  lemma FrontFinished(done: seq<Order>)
    requires done != [] && forall i | 0 <= i < |done| - 1 :: done[i].remain == 0
    ensures AllFinished(done[..|done| - 1]) && Survivors(done[..|done| - 1]) == []
  {
    SurvivorsOfFinished(done[..|done| - 1]);
  }

  lemma SurvivorsOneMore(done: seq<Order>)
    requires done != [] && Survivors(done[..|done| - 1]) == []
    ensures Survivors(done) == if Last(done).remain == 0 then [] else [Last(done)]
  {
  }

  lemma FinishedToTheEnd(done: seq<Order>)
    requires done != [] && AllFinished(done[..|done| - 1]) && Last(done).remain == 0
    ensures AllFinished(done)
  {
    forall i | 0 <= i < |done|
      ensures done[i].remain == 0
    {
      if i < |done| - 1 {
        assert done[..|done| - 1][i] == done[i];
      }
    }
  }

  /** The finished makers are a prefix, so what survives of the counter side is a suffix of it. */
  lemma SurvivorsAreSuffix(done: seq<Order>)
    requires forall i | 0 <= i < |done| - 1 :: done[i].remain == 0
    ensures Survivors(done) == done[FinishedCount(done)..]
    ensures AllFinished(done[..FinishedCount(done)])
  {
    if done != [] {
      FrontFinished(done);
      SurvivorsOneMore(done);
      if Last(done).remain == 0 {
        FinishedToTheEnd(done);
        assert done[..|done|] == done && done[|done|..] == [];
      } else {
        assert done[|done| - 1..] == [Last(done)];
      }
    }
  }
}
