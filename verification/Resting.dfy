/** What becomes of an accepted order once it has traded: whether it comes to rest, and why it does not. */
module Resting {
  import opened Types
  import opened Orders
  import opened Matching
  import opened MatchLoop
  import opened MatchShape
  import opened BookInvariant
  import opened OrderExecution

  /** An order's price is good enough for one of the other side. */
  predicate Meets(o: Order, p: Order)
  {
    if o.side == ASK then o.price <= p.price else p.price <= o.price
  }

  /** What is left of an order joins its own side, with what it needs set aside. */
  ghost predicate Joins(c: MarketConf, own: seq<Order>, own': seq<Order>, o: Order)
  {
    && multiset(own') == multiset(own) + multiset{o} && Sorted(o.side, own')
    && o.frozen == o.remain * if o.side == ASK then c.lot else o.price
  }

  /** The loop's end tells what is left on the other side, and whether the order was cancelled. */
  lemma EndTells(c: MarketConf, s: Matched, limit: int, maxId: nat)
    requires s.done == [] && LoopOk(c, s, limit, maxId) && Sorted(MakerSide(s), s.rest)
    requires Match(c, s, limit).Ended? && Match(c, s, limit).s.taker.remain != 0 && !(s.taker.kind == MARKET && s.taker.side == BID)
    ensures var Ended(m, needCancel) := Match(c, s, limit);
            && Survivors(m.done) == [] && SameOrder(s.taker, m.taker)
            && (needCancel ==> m.rest != [] && (m.taker.postOnly || m.rest[0].user == m.taker.user))
            && (m.taker.kind == LIMIT ==> (needCancel <==> m.rest != [] && Meets(m.taker, m.rest[0])))
            && (m.taker.kind == MARKET && m.rest != [] ==> needCancel)
  {
    MatchTakes(c, s, limit, maxId);
    MatchEmptiesInOrder(c, s, limit, maxId);
    MatchStopsForReason(c, s, limit, maxId);
    NothingOpenSurvives(Match(c, s, limit).s.done);
  }

  lemma RestsOrNot(c: MarketConf, v: Venue, m: Matched, needCancel: bool)
    requires Sorted(m.taker.side, v.book.Side(m.taker.side))
    requires forall i | 0 <= i < |v.book.Side(m.taker.side)| :: v.book.Side(m.taker.side)[i].id != m.taker.id
    ensures var placed := AfterMatch(c, v, m, needCancel);
            var own, own' := v.book.Side(m.taker.side), placed.venue.book.Side(m.taker.side);
            && SameOrder(m.taker, placed.order) && placed.order.remain == m.taker.remain
            && placed.order.finishedBase == m.taker.finishedBase
            && (if Rests(m, needCancel) then Joins(c, own, own', placed.order) else own' == own && placed.order == m.taker)
  {
    if Rests(m, needCancel) {
      var o := WithBacking(c, m.taker);
      InsertKeepsSorted(m.taker.side, v.book.Side(m.taker.side), o);
      InsertAddsOrder(m.taker.side, v.book.Side(m.taker.side), o);
    }
  }

  lemma FreshId(c: MarketConf, v: Venue, side: OrderSide)
    requires VenueOk(c, v)
    ensures Sorted(side, v.book.Side(side)) && forall i | 0 <= i < |v.book.Side(side)| :: v.book.Side(side)[i].id <= v.counters.orderId
  {
    forall i | 0 <= i < |v.book.Side(side)|
      ensures v.book.Side(side)[i].id <= v.counters.orderId
    {
      assert Working(c, side, v.book.Side(side)[i], v.counters.orderId);
    }
  }

  /** Whether what is left of an order comes to rest: a limit order whose price the best order left on
      the other side does not meet. */
  predicate StaysOpen(o: Order, left: seq<Order>)
  {
    o.kind == LIMIT && o.remain != 0 && (left == [] || !Meets(o, left[0]))
  }

  /** An accepted order rests exactly if it is a limit order not filled and not meeting what is left;
      its own side otherwise stays as it was.  It gives up what it could still trade only when it is
      post-only, or the next order is its own user's, or it is a market bid. */
  lemma OrderOutcome(c: MarketConf, v: Venue, input: OrderInput, user: Uuid)
    requires IsAccepted(c, v, input, user)
    ensures var placed := PutOrder(c, v, input, user).placed;
            var o, left := placed.order, placed.venue.book.Side(Opposite(input.side));
            var own, own' := v.book.Side(input.side), placed.venue.book.Side(input.side);
            && SameOrder(Incoming(c, v, input, user), o) && o.remain + o.finishedBase == o.amount
            && (if StaysOpen(o, left) then Joins(c, own, own', o) else own' == own && o.frozen == 0)
            && (o.remain != 0 && left != [] && (o.kind == LIMIT ==> Meets(o, left[0]))
                ==> o.postOnly || left[0].user == user || (o.kind == MARKET && o.side == BID))
  {
    var limit := QuoteLimit(c, v, input, user);
    var s, m := AcceptedEnds(c, v, input, user);
    AcceptedLeaves(c, v, input, user, s, m);
    AcceptedIsAfterMatch(c, v, input, user, s, m);
    MatchWorks(c, s, limit, v.counters.orderId + 1);
    FreshId(c, v, input.side);
    RestsOrNot(c, NextOrderId(v), m, Match(c, s, limit).needCancel);
    if m.taker.remain != 0 && !(input.kind == MARKET && input.side == BID) {
      EndTells(c, s, limit, v.counters.orderId + 1);
    }
  }
}
