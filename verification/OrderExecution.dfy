/** What greedy matching means for a whole order: how an accepted request fills from the book, what it
    pays, and why no other fill would have been better. */
module OrderExecution {
  import opened Types
  import opened Orders
  import opened Ledger
  import opened Matching
  import opened MatchLoop
  import opened MatchShape
  import opened BookInvariant
  import opened VenueInvariant
  import opened Exchange
  import opened ExchangeInvariant
  import opened Greedy
  import opened Sums

  /** What is left of order `id` in this side: nothing, if it is gone. */
  function LeftOf(s: seq<Order>, id: nat): int
  {
    var i := IndexOf(s, id);
    if i < |s| then s[i].remain else 0
  }

  /** What each resting order gave up, seen in the book alone. */
  function GaveUp(before: seq<Order>, after: seq<Order>): seq<int>
  {
    seq(|before|, i requires 0 <= i < |before| => before[i].remain - LeftOf(after, before[i].id))
  }

  lemma LeftInTail(s: seq<Order>, n: nat, i: nat)
    requires n <= |s| && i < |s| && DistinctIds(s)
    ensures LeftOf(s[n..], s[i].id) == if i < n then 0 else s[i].remain
  {
    var t := s[n..];
    assert forall j | 0 <= j < |t| :: t[j] == s[n + j];
    if n <= i {
      assert t[i - n] == s[i];
    }
  }

  lemma SameOrdersSameIds(s: seq<Order>, t: seq<Order>)
    requires |s| == |t| && DistinctIds(s) && forall i | 0 <= i < |s| :: SameOrder(s[i], t[i])
    ensures DistinctIds(t) && forall i | 0 <= i < |s| :: s[i].id == t[i].id
  {
    assert forall i | 0 <= i < |s| :: s[i].id == t[i].id;
  }

  /** Where the first `n` are empty and gone, what is left shows in the rest. */
  lemma LeftAfter(was: seq<Order>, all: seq<Order>, n: nat)
    requires |all| == |was| && n <= |all| && DistinctIds(was)
    requires (forall i | 0 <= i < |was| :: SameOrder(was[i], all[i])) && AllFinished(all[..n])
    ensures GaveUp(was, all[n..]) == Fills(was, all)
  {
    SameOrdersSameIds(was, all);
    forall i | 0 <= i < |was|
      ensures LeftOf(all[n..], was[i].id) == all[i].remain
    {
      LeftInTail(all, n, i);
      if i < n {
        assert all[..n][i] == all[i];
      }
    }
  }

  /** The fills of the loop are what the book shows. */
  lemma FillsShow(c: MarketConf, side: OrderSide, was: seq<Order>, m: Matched, maxId: nat)
    requires Worked(c, side, was, m.done, m.rest, maxId) && DistinctIds(was)
    ensures |Makers(m)| == |was| && GaveUp(was, Survivors(m.done) + m.rest) == Fills(was, Makers(m))
  {
    WorkedLeavesTail(c, side, was, m.done, m.rest, maxId);
    WorkedKeepsOrders(c, side, was, m.done, m.rest, maxId, Makers(m));
    LeftAfter(was, Makers(m), FinishedCount(m.done));
  }

  lemma WorkedKeepsOrders(c: MarketConf, side: OrderSide, was: seq<Order>, done: seq<Order>, rest: seq<Order>, maxId: nat, all: seq<Order>)
    requires Worked(c, side, was, done, rest, maxId) && all == done + rest
    ensures |all| == |was| && forall i | 0 <= i < |was| :: SameOrder(was[i], all[i])
  {
  }

  // ---------------------------------------------------------------- an accepted order

  /** The order a request becomes, before it is matched. */
  function Incoming(c: MarketConf, v: Venue, input: OrderInput, user: Uuid): Order
  {
    NewOrder(c, v.counters.orderId + 1, input, user)
  }

  ghost predicate IsAccepted(c: MarketConf, v: Venue, input: OrderInput, user: Uuid)
  {
    VenueOk(c, v) && Sensible(input) && PutOrder(c, v, input, user).Accepted?
  }

  /** The loop's end and the venue after it, of an accepted request. */
  ghost predicate Ends(c: MarketConf, v: Venue, input: OrderInput, user: Uuid, s: Matched, m: Matched)
  {
    && s == Start(Incoming(c, v, input, user), v.book.Side(Opposite(input.side)), NextOrderId(v))
    && Match(c, s, QuoteLimit(c, v, input, user)).Ended? && m == Match(c, s, QuoteLimit(c, v, input, user)).s
  }

  lemma AcceptedEnds(c: MarketConf, v: Venue, input: OrderInput, user: Uuid) returns (s: Matched, m: Matched)
    requires IsAccepted(c, v, input, user)
    ensures Ends(c, v, input, user, s, m)
    ensures LoopOk(c, s, QuoteLimit(c, v, input, user), v.counters.orderId + 1) && Sorted(MakerSide(s), s.rest)
    ensures Worked(c, MakerSide(s), s.rest, m.done, m.rest, v.counters.orderId + 1) && DistinctIds(s.rest)
    ensures m.taker.side == input.side
  {
    var taker, limit := Incoming(c, v, input, user), QuoteLimit(c, v, input, user);
    AdmittedIsReady(c, v, input, user);
    StartIsLoopOk(c, NextOrderId(v), taker, limit);
    s := Start(taker, v.book.Side(Opposite(input.side)), NextOrderId(v));
    MatchWorks(c, s, limit, v.counters.orderId + 1);
    m := Match(c, s, limit).s;
  }

  lemma AcceptedIsAfterMatch(c: MarketConf, v: Venue, input: OrderInput, user: Uuid, s: Matched, m: Matched)
    requires PutOrder(c, v, input, user).Accepted? && Ends(c, v, input, user, s, m)
    ensures PutOrder(c, v, input, user).placed
         == AfterMatch(c, NextOrderId(v), m, Match(c, s, QuoteLimit(c, v, input, user)).needCancel)
  {
  }

  lemma AfterMatchLeaves(c: MarketConf, v: Venue, m: Matched, needCancel: bool)
    ensures var placed := AfterMatch(c, v, m, needCancel);
            && placed.venue.book.Side(Opposite(m.taker.side)) == Survivors(m.done) + m.rest
            && placed.order.remain == m.taker.remain && placed.order.finishedQuote == m.taker.finishedQuote
  {
  }

  /** The order and the other side of the book, after an accepted request. */
  lemma AcceptedLeaves(c: MarketConf, v: Venue, input: OrderInput, user: Uuid, s: Matched, m: Matched)
    requires IsAccepted(c, v, input, user) && Ends(c, v, input, user, s, m) && m.taker.side == input.side
    ensures var placed := PutOrder(c, v, input, user).placed;
            && placed.venue.book.Side(Opposite(input.side)) == Survivors(m.done) + m.rest
            && placed.order.remain == m.taker.remain && placed.order.finishedQuote == m.taker.finishedQuote
  {
    AcceptedIsAfterMatch(c, v, input, user, s, m);
    AfterMatchLeaves(c, NextOrderId(v), m, Match(c, s, QuoteLimit(c, v, input, user)).needCancel);
  }

  /** What the resting orders gave up when the request was placed. */
  function FilledBy(c: MarketConf, v: Venue, input: OrderInput, user: Uuid): seq<int>
    requires PutOrder(c, v, input, user).Accepted?
  {
    var side := Opposite(input.side);
    GaveUp(v.book.Side(side), PutOrder(c, v, input, user).placed.venue.book.Side(side))
  }

  ghost predicate FillsBestFirst(taker: Order, makers: seq<Order>, x: seq<int>, k: nat)
  {
    GreedyFills(makers, x, k) && forall i | 0 <= i < k :: Willing(taker, makers[i])
  }

  /** An accepted order empties the best orders of the other side in order, touching only willing ones;
      it is filled by exactly what they gave up, and pays or is paid exactly their prices. */
  lemma OrderIsGreedy(c: MarketConf, v: Venue, input: OrderInput, user: Uuid) returns (k: nat)
    requires IsAccepted(c, v, input, user)
    ensures var makers, x := v.book.Side(Opposite(input.side)), FilledBy(c, v, input, user);
            var order := PutOrder(c, v, input, user).placed.order;
            && FillsBestFirst(Incoming(c, v, input, user), makers, x, k)
            && Incoming(c, v, input, user).remain - order.remain == SumOf(x)
            && |x| == |makers| && order.finishedQuote == Cost(makers, x)
  {
    var s, m := AcceptedEnds(c, v, input, user);
    AcceptedLeaves(c, v, input, user, s, m);
    FillsShow(c, MakerSide(s), s.rest, m, v.counters.orderId + 1);
    MatchIsGreedy(c, s, QuoteLimit(c, v, input, user), v.counters.orderId + 1);
    k := |m.done|;
  }

  /** Of two resting orders: `p` offers a taker of `side` the better price, or the same and is older. */
  predicate Precedes(side: OrderSide, p: Order, q: Order)
  {
    (if side == ASK then p.price > q.price else p.price < q.price) || (p.price == q.price && p.id < q.id)
  }

  lemma NoneBehindPrecedes(side: OrderSide, s: seq<Order>, i: nat)
    requires Sorted(Opposite(side), s) && i < |s|
    ensures forall j | i < j < |s| :: !Precedes(side, s[j], s[i])
  {
    assert forall j | i < j < |s| :: Before(Opposite(side), KeyOf(s[i]), KeyOf(s[j]));
  }

  /** Price-time priority: no resting order gives up a lot before every order with a better price, and
      every older one with the same price, has given up all it had. */
  lemma OrderHasPriority(c: MarketConf, v: Venue, input: OrderInput, user: Uuid, i: nat, j: nat)
    requires IsAccepted(c, v, input, user)
    requires var makers, x := v.book.Side(Opposite(input.side)), FilledBy(c, v, input, user);
             |x| == |makers| && i < |makers| && j < |makers| && 0 < x[i] && Precedes(input.side, makers[j], makers[i])
    ensures FilledBy(c, v, input, user)[j] == v.book.Side(Opposite(input.side))[j].remain
  {
    var s, m := AcceptedEnds(c, v, input, user);
    NoneBehindPrecedes(input.side, s.rest, i);
    var k := OrderIsGreedy(c, v, input, user);
  }

  /** Best execution of an accepted order: no other way to take the same quantity from the orders
      resting on the other side would have cost a bid less, or paid an ask more. */
  lemma OrderIsBest(c: MarketConf, v: Venue, input: OrderInput, user: Uuid, x: seq<int>)
    requires IsAccepted(c, v, input, user)
    requires var makers, order := v.book.Side(Opposite(input.side)), PutOrder(c, v, input, user).placed.order;
             && |x| == |makers| && (forall i | 0 <= i < |x| :: 0 <= x[i] <= makers[i].remain)
             && SumOf(x) == Incoming(c, v, input, user).remain - order.remain
    ensures var makers, order := v.book.Side(Opposite(input.side)), PutOrder(c, v, input, user).placed.order;
            if input.side == ASK then Cost(makers, x) <= order.finishedQuote else order.finishedQuote <= Cost(makers, x)
  {
    var s, m := AcceptedEnds(c, v, input, user);
    AcceptedLeaves(c, v, input, user, s, m);
    BestExecution(c, s, QuoteLimit(c, v, input, user), v.counters.orderId + 1, x);
  }

  lemma WithinQuotient(x: int, limit: Fixed, step: Pos)
    ensures x <= limit / step <==> x * step <= limit
  {
    if x <= limit / step {
      ProductMonotone(x, limit / step, step);
    } else {
      ProductMonotone(limit / step + 1, x, step);
    }
  }

  /** This much quote is within what the user has free and, if the request sets a quote limit, within it. */
  predicate CanSpend(c: MarketConf, v: Venue, input: OrderInput, user: Uuid, x: int)
  {
    && x <= Get(v.funds.balances, BalanceKey(user, AVAILABLE, c.quote))
    && (input.quoteLimit != 0 ==> x * c.quoteStep <= input.quoteLimit)
  }

  /** The limit of the loop, in the request's own terms. */
  lemma LimitOfRequest(c: MarketConf, v: Venue, input: OrderInput, user: Uuid, x: int)
    requires input.kind == MARKET && input.side == BID
    ensures x <= QuoteLimit(c, v, input, user)
       <==> CanSpend(c, v, input, user, x)
  {
    WithinQuotient(x, input.quoteLimit, c.quoteStep);
  }

  lemma MarketBidIsWithin(c: MarketConf, v: Venue, input: OrderInput, user: Uuid)
    requires IsAccepted(c, v, input, user) && input.kind == MARKET && input.side == BID
    ensures var placed, limit := PutOrder(c, v, input, user).placed, QuoteLimit(c, v, input, user);
            var left := placed.venue.book.asks;
            && placed.order.finishedQuote <= limit
            && (placed.order.remain != 0 && left != [] && left[0].user != user ==> limit < placed.order.finishedQuote + left[0].price)
  {
    var s, m := AcceptedEnds(c, v, input, user);
    AcceptedLeaves(c, v, input, user, s, m);
    MarketBidUsesItsBudget(c, s, QuoteLimit(c, v, input, user), v.counters.orderId + 1);
  }

  /** An accepted market bid spends no more than its user has free, nor than the request allows; if it
      stays unfilled while other users' asks are next, one more lot would have been too much. */
  lemma MarketBidIsSpent(c: MarketConf, v: Venue, input: OrderInput, user: Uuid)
    requires IsAccepted(c, v, input, user) && input.kind == MARKET && input.side == BID
    ensures var placed := PutOrder(c, v, input, user).placed;
            var left := placed.venue.book.asks;
            && CanSpend(c, v, input, user, placed.order.finishedQuote)
            && (placed.order.remain != 0 && left != [] && left[0].user != user
                ==> !CanSpend(c, v, input, user, placed.order.finishedQuote + left[0].price))
  {
    MarketBidIsWithin(c, v, input, user);
    var placed := PutOrder(c, v, input, user).placed;
    LimitOfRequest(c, v, input, user, placed.order.finishedQuote);
    if placed.venue.book.asks != [] {
      LimitOfRequest(c, v, input, user, placed.order.finishedQuote + placed.venue.book.asks[0].price);
    }
  }

  /** The same holds of every order any exchange accepts. */
  lemma PutOneIsBest(cfg: Config, e: Exchange, user: Uuid, put: PutRequest, x: seq<int>)
    requires ExchangeOk(cfg, e) && Sensible(put.input) && PutOne(cfg, e, user, put).response == Accept
    ensures var n := put.market;
            Listed(cfg, e, n) && IsAccepted(cfg.confs[n], VenueOf(e, n), put.input, user)
    ensures var n, v := put.market, VenueOf(e, put.market);
            var placed := PutOrder(cfg.confs[n], v, put.input, user).placed;
            var makers := v.book.Side(Opposite(put.input.side));
            && PutOne(cfg, e, user, put).exchange == WithVenue(e, n, placed.venue)
            && (|x| == |makers| && (forall i | 0 <= i < |x| :: 0 <= x[i] <= makers[i].remain)
                && SumOf(x) == Incoming(cfg.confs[n], v, put.input, user).remain - placed.order.remain
                ==> if put.input.side == ASK then Cost(makers, x) <= placed.order.finishedQuote
                    else placed.order.finishedQuote <= Cost(makers, x))
  {
    var n, v := put.market, VenueOf(e, put.market);
    VenueOfIsOk(cfg, e, n);
    var makers := v.book.Side(Opposite(put.input.side));
    if |x| == |makers| && (forall i | 0 <= i < |x| :: 0 <= x[i] <= makers[i].remain)
       && SumOf(x) == Incoming(cfg.confs[n], v, put.input, user).remain - PutOrder(cfg.confs[n], v, put.input, user).placed.order.remain {
      OrderIsBest(cfg.confs[n], v, put.input, user, x);
    }
  }
}
