/** Matching is greedy price-time filling, and greedy filling is best execution. */
module Greedy {
  import opened Types
  import opened Orders
  import opened Ledger
  import opened Matching
  import opened MatchLoop
  import opened MatchShape
  import opened Sums

  // ---------------------------------------------------------------- fills of a side

  /** What it costs to take `x[i]` lots from each maker. */
  function Cost(makers: seq<Order>, x: seq<int>): int
    requires |makers| == |x|
  {
    if x == [] then 0 else makers[0].price * x[0] + Cost(makers[1..], x[1..])
  }

  /** How much each maker gave up from one state to the other. */
  function Fills(before: seq<Order>, after: seq<Order>): seq<int>
    requires |before| == |after|
  {
    seq(|before|, i requires 0 <= i < |before| => before[i].remain - after[i].remain)
  }

  /** The makers after matching, as one sequence again. */
  function Makers(m: Matched): seq<Order>
  {
    m.done + m.rest
  }

  /** Willing: the loop may trade with this maker. */
  predicate Willing(taker: Order, maker: Order)
  {
    (taker.kind == LIMIT ==> Crosses(taker, maker)) && !taker.postOnly && taker.user != maker.user
  }

  /** Everything of the first `k - 1` makers, some of maker `k - 1`, nothing of the rest. */
  ghost predicate GreedyFills(makers: seq<Order>, x: seq<int>, k: nat)
  {
    && |x| == |makers| && k <= |makers|
    && (forall i | 0 <= i < k :: 0 < x[i] <= makers[i].remain)
    && (forall i | 0 <= i < k - 1 :: x[i] == makers[i].remain)
    && (forall i | k <= i < |x| :: x[i] == 0)
  }

  /** One turn: the first maker gives up some lots at its own price, and the taker gets them. */
  ghost predicate FirstFilled(s: Matched, s': Matched)
  {
    && s.rest != [] && |s'.done| == |s.done| + 1 && s'.done[..|s.done|] == s.done && s'.rest == s.rest[1..]
    && SameOrder(s.taker, s'.taker) && Willing(s.taker, s.rest[0])
    && 0 <= Last(s'.done).remain < s.rest[0].remain
    && var x := s.rest[0].remain - Last(s'.done).remain;
       && s'.taker.remain == s.taker.remain - x
       && s'.quoteSum == s.quoteSum + s.rest[0].price * x
       && s'.taker.finishedQuote == s.taker.finishedQuote + s.rest[0].price * x
  }

  lemma TurnFills(c: MarketConf, s: Matched, limit: int, maxId: nat)
    requires LoopOk(c, s, limit, maxId) && Turn(c, s, limit).Go?
    ensures FirstFilled(s, Turn(c, s, limit).next)
  {
    TurnKeepsLoop(c, s, limit, maxId);
    DealFits(c, s, limit, maxId);
  }

  /** Each maker was willing and gave up some of what it had. */
  ghost predicate Drawn(taker: Order, before: seq<Order>, after: seq<Order>)
  {
    && |before| == |after|
    && forall i | 0 <= i < |before| :: Willing(taker, before[i]) && 0 <= after[i].remain < before[i].remain
  }

  /** What the turns from `s` to `m` took from the makers in `s.rest`. */
  ghost predicate FilledFrom(s: Matched, m: Matched)
  {
    && Took(s, m)
    && Drawn(s.taker, s.rest[..|m.done| - |s.done|], m.done[|s.done|..])
    && var x := Fills(s.rest[..|m.done| - |s.done|], m.done[|s.done|..]);
       && s.taker.remain - m.taker.remain == SumOf(x)
       && m.quoteSum - s.quoteSum == Cost(s.rest[..|m.done| - |s.done|], x)
       && m.taker.finishedQuote - s.taker.finishedQuote == Cost(s.rest[..|m.done| - |s.done|], x)
  }

  lemma FillsOfFirst(before: seq<Order>, after: seq<Order>)
    requires |before| == |after| && before != []
    ensures var x := before[0].remain - after[0].remain;
            && SumOf(Fills(before, after)) == x + SumOf(Fills(before[1..], after[1..]))
            && Cost(before, Fills(before, after)) == before[0].price * x + Cost(before[1..], Fills(before[1..], after[1..]))
  {
    assert Fills(before, after)[1..] == Fills(before[1..], after[1..]);
  }

  lemma FilledStep(s: Matched, s': Matched, m: Matched)
    requires FirstFilled(s, s') && Took(s, m) && FilledFrom(s', m)
    ensures FilledFrom(s, m)
  {
    var n := |m.done| - |s.done|;
    assert m.done[|s.done|] == m.done[..|s'.done|][|s.done|] == Last(s'.done);
    var before, after := s.rest[..n], m.done[|s.done|..];
    assert before[1..] == s'.rest[..n - 1];
    assert after[1..] == m.done[|s'.done|..];
    FillsOfFirst(before, after);
    DrawnStep(s.taker, s'.taker, before, after);
  }

  lemma DrawnStep(t: Order, t': Order, before: seq<Order>, after: seq<Order>)
    requires |before| == |after| && before != [] && SameOrder(t, t')
    requires Willing(t, before[0]) && 0 <= after[0].remain < before[0].remain && Drawn(t', before[1..], after[1..])
    ensures Drawn(t, before, after)
  {
    forall i | 0 < i < |before|
      ensures Willing(t, before[i]) && 0 <= after[i].remain < before[i].remain
    {
      assert before[1..][i - 1] == before[i] && after[1..][i - 1] == after[i];
      SameTakerIsAsWilling(t, t', before[i]);
    }
  }

  lemma SameTakerIsAsWilling(t: Order, t': Order, maker: Order)
    requires SameOrder(t, t')
    ensures Willing(t, maker) == Willing(t', maker)
  {
    assert t'.kind == t.kind && t'.side == t.side && t'.price == t.price;
  }

  lemma FilledFromItself(s: Matched)
    ensures FilledFrom(s, s)
  {
    assert s.done[..|s.done|] == s.done && s.rest[0..] == s.rest;
    assert s.rest[..0] == [] && s.done[|s.done|..] == [];
  }

  lemma {:induction false} MatchFills(c: MarketConf, s: Matched, limit: int, maxId: nat)
    requires LoopOk(c, s, limit, maxId)
    ensures Match(c, s, limit).Ended? && FilledFrom(s, Match(c, s, limit).s)
    decreases |s.rest|
  {
    MatchTakes(c, s, limit, maxId);
    TurnKeepsLoop(c, s, limit, maxId);
    if Turn(c, s, limit).Go? {
      var s' := Turn(c, s, limit).next;
      TurnFills(c, s, limit, maxId);
      MatchFills(c, s', limit, maxId);
      FilledStep(s, s', Match(c, s, limit).s);
    } else {
      FilledFromItself(s);
    }
  }

  // ---------------------------------------------------------------- the loop is greedy

  lemma {:induction false} ZerosAddNothing(makers: seq<Order>, x: seq<int>, n: nat)
    requires |makers| == |x| && n <= |x| && forall i | n <= i < |x| :: x[i] == 0
    ensures SumOf(x) == SumOf(x[..n]) && Cost(makers, x) == Cost(makers[..n], x[..n])
  {
    if n == 0 {
      if x != [] {
        ZerosAddNothing(makers[1..], x[1..], 0);
        assert x[1..][..0] == [] && makers[1..][..0] == [];
      }
    } else {
      ZerosAddNothing(makers[1..], x[1..], n - 1);
      assert x[..n][1..] == x[1..][..n - 1] && makers[..n][1..] == makers[1..][..n - 1];
    }
  }

  lemma FillsOfTaken(was: seq<Order>, done: seq<Order>, rest: seq<Order>)
    requires |done| <= |was| && rest == was[|done|..]
    ensures |done + rest| == |was|
    ensures Fills(was, done + rest)[..|done|] == Fills(was[..|done|], done)
    ensures forall i | |done| <= i < |was| :: Fills(was, done + rest)[i] == 0
    ensures forall i | 0 <= i < |done| :: Fills(was, done + rest)[i] == was[i].remain - done[i].remain
  {
  }

  lemma GreedyFromTaken(was: seq<Order>, done: seq<Order>, rest: seq<Order>)
    requires |done| <= |was| && rest == was[|done|..]
    requires forall i | 0 <= i < |done| :: 0 <= done[i].remain < was[i].remain
    requires forall i | 0 <= i < |done| - 1 :: done[i].remain == 0
    ensures |done + rest| == |was|
    ensures GreedyFills(was, Fills(was, done + rest), |done|)
    ensures SumOf(Fills(was, done + rest)) == SumOf(Fills(was[..|done|], done))
    ensures Cost(was, Fills(was, done + rest)) == Cost(was[..|done|], Fills(was[..|done|], done))
  {
    FillsOfTaken(was, done, rest);
    ZerosAddNothing(was, Fills(was, done + rest), |done|);
  }

  /** The whole loop, from a fresh start: it empties the best makers in order, touches only willing
      ones, and what the taker gets and pays is what they gave, each at its own price. */
  lemma MatchIsGreedy(c: MarketConf, s: Matched, limit: int, maxId: nat)
    requires LoopOk(c, s, limit, maxId) && Sorted(MakerSide(s), s.rest)
    requires s.done == [] && s.quoteSum == 0 && s.taker.finishedQuote == 0
    ensures Match(c, s, limit).Ended?
    ensures var m := Match(c, s, limit).s;
            && |Makers(m)| == |s.rest|
            && var x := Fills(s.rest, Makers(m));
               && GreedyFills(s.rest, x, |m.done|)
               && (forall i | 0 <= i < |m.done| :: Willing(s.taker, s.rest[i]))
               && s.taker.remain - m.taker.remain == SumOf(x)
               && m.quoteSum == m.taker.finishedQuote == Cost(s.rest, x)
  {
    MatchFills(c, s, limit, maxId);
    MatchEmptiesInOrder(c, s, limit, maxId);
    FilledIsGreedy(s, Match(c, s, limit).s);
  }

  lemma FilledIsGreedy(s: Matched, m: Matched)
    requires FilledFrom(s, m) && Emptied(s, m) && s.done == [] && s.quoteSum == 0 && s.taker.finishedQuote == 0
    ensures |Makers(m)| == |s.rest|
    ensures var x := Fills(s.rest, Makers(m));
            && GreedyFills(s.rest, x, |m.done|)
            && (forall i | 0 <= i < |m.done| :: Willing(s.taker, s.rest[i]))
            && s.taker.remain - m.taker.remain == SumOf(x)
            && m.quoteSum == m.taker.finishedQuote == Cost(s.rest, x)
  {
    FilledFromStart(s, m);
    DrawnFromFirst(s.taker, s.rest, m.done);
    GreedyFromTaken(s.rest, m.done, m.rest);
  }

  lemma FilledFromStart(s: Matched, m: Matched)
    requires FilledFrom(s, m) && s.done == [] && s.quoteSum == 0 && s.taker.finishedQuote == 0
    ensures |m.done| <= |s.rest| && m.rest == s.rest[|m.done|..]
    ensures var before := s.rest[..|m.done|];
            && Drawn(s.taker, before, m.done)
            && s.taker.remain - m.taker.remain == SumOf(Fills(before, m.done))
            && m.quoteSum == m.taker.finishedQuote == Cost(before, Fills(before, m.done))
  {
    assert m.done[0..] == m.done;
  }

  lemma DrawnFromFirst(taker: Order, was: seq<Order>, done: seq<Order>)
    requires |done| <= |was| && Drawn(taker, was[..|done|], done)
    ensures forall i | 0 <= i < |done| :: Willing(taker, was[i]) && 0 <= done[i].remain < was[i].remain
  {
    assert forall i | 0 <= i < |done| :: was[..|done|][i] == was[i];
  }

  // ---------------------------------------------------------------- greedy is best

  /** Taking `x` instead of `f` costs at least `p` for every extra lot, when extra lots come only at
      prices no better than `p` and lots are left only at prices no worse. */
  lemma {:induction false} CostAgainstPivot(side: OrderSide, makers: seq<Order>, f: seq<int>, x: seq<int>, p: int)
    requires |makers| == |f| == |x|
    requires forall i | 0 <= i < |x| ::
               if side == ASK then (makers[i].price - p) * (x[i] - f[i]) >= 0 else (makers[i].price - p) * (x[i] - f[i]) <= 0
    ensures if side == ASK then Cost(makers, x) - Cost(makers, f) >= p * (SumOf(x) - SumOf(f))
            else Cost(makers, x) - Cost(makers, f) <= p * (SumOf(x) - SumOf(f))
  {
    if x != [] {
      CostAgainstPivot(side, makers[1..], f[1..], x[1..], p);
      PivotStep(makers[0].price, p, x[0], f[0], SumOf(x[1..]), SumOf(f[1..]));
    }
  }

  lemma PivotStep(price: int, p: int, a: int, b: int, restA: int, restB: int)
    ensures (price - p) * (a - b) == price * a - price * b - p * (a - b)
    ensures p * (a + restA - (b + restB)) == p * (a - b) + p * (restA - restB)
  {
  }

  lemma PivotTerm(side: OrderSide, price: int, p: int, d: int)
    requires if side == ASK then (price <= p && d <= 0) || (p <= price && 0 <= d) || price == p
             else (p <= price && d <= 0) || (price <= p && 0 <= d) || price == p
    ensures if side == ASK then (price - p) * d >= 0 else (price - p) * d <= 0
  {
  }

  /** Among all ways to take the same total from these makers within their remains, greedy filling
      of asks is the cheapest and of bids the dearest. */
  /** Against the price of maker `n`, the last that is filled, no choice gains at any maker. */
  lemma NoGainAt(side: OrderSide, makers: seq<Order>, f: seq<int>, n: nat, x: seq<int>, i: nat)
    requires Sorted(side, makers) && n < |makers| && |x| == |f| == |makers| && i < |makers|
    requires i < n ==> x[i] <= f[i]
    requires n < i ==> f[i] <= x[i]
    ensures if side == ASK then (makers[i].price - makers[n].price) * (x[i] - f[i]) >= 0
            else (makers[i].price - makers[n].price) * (x[i] - f[i]) <= 0
  {
    if i < n {
      assert Before(side, KeyOf(makers[i]), KeyOf(makers[n]));
    } else if n < i {
      assert Before(side, KeyOf(makers[n]), KeyOf(makers[i]));
    }
    PivotTerm(side, makers[i].price, makers[n].price, x[i] - f[i]);
  }

  lemma GreedyIsBest(side: OrderSide, makers: seq<Order>, f: seq<int>, k: nat, x: seq<int>)
    requires Sorted(side, makers) && GreedyFills(makers, f, k)
    requires |x| == |makers| && SumOf(x) == SumOf(f)
    requires forall i | 0 <= i < |x| :: 0 <= x[i] <= makers[i].remain
    ensures if side == ASK then Cost(makers, f) <= Cost(makers, x) else Cost(makers, x) <= Cost(makers, f)
  {
    if makers != [] {
      var n := if k == 0 then 0 else k - 1;
      var p := makers[n].price;
      forall i | 0 <= i < |x|
        ensures if side == ASK then (makers[i].price - p) * (x[i] - f[i]) >= 0 else (makers[i].price - p) * (x[i] - f[i]) <= 0
      {
        NoGainAt(side, makers, f, n, x, i);
      }
      CostAgainstPivot(side, makers, f, x, p);
      assert p * (SumOf(x) - SumOf(f)) == 0;
    }
  }

  /** Best execution: no other choice of resting orders, taken within their remains for the same total
      quantity, would have cost a bid taker less or paid an ask taker more. */
  lemma BestExecution(c: MarketConf, s: Matched, limit: int, maxId: nat, x: seq<int>)
    requires LoopOk(c, s, limit, maxId) && Sorted(MakerSide(s), s.rest)
    requires s.done == [] && s.quoteSum == 0 && s.taker.finishedQuote == 0
    requires |x| == |s.rest| && forall i | 0 <= i < |x| :: 0 <= x[i] <= s.rest[i].remain
    requires Match(c, s, limit).Ended? && SumOf(x) == s.taker.remain - Match(c, s, limit).s.taker.remain
    ensures if s.taker.IsAsk() then Cost(s.rest, x) <= Match(c, s, limit).s.taker.finishedQuote
            else Match(c, s, limit).s.taker.finishedQuote <= Cost(s.rest, x)
  {
    MatchIsGreedy(c, s, limit, maxId);
    var m := Match(c, s, limit).s;
    GreedyIsBest(MakerSide(s), s.rest, Fills(s.rest, Makers(m)), |m.done|, x);
  }

  // ---------------------------------------------------------------- market bids

  lemma OpenTurnExhaustsBudget(c: MarketConf, s: Matched, limit: int, maxId: nat)
    requires LoopOk(c, s, limit, maxId) && Turn(c, s, limit).Go?
    requires Last(Turn(c, s, limit).next.done).remain != 0 && Turn(c, s, limit).next.taker.remain != 0
    ensures limit - Turn(c, s, limit).next.quoteSum < Last(Turn(c, s, limit).next.done).price
  {
    TurnKeepsLoop(c, s, limit, maxId);
    DealFits(c, s, limit, maxId);
    RoomRunsOut(limit - s.quoteSum, s.rest[0].price, s.rest[0].price, 1);
  }

  /** Whether a maker from among those traded with since `s` was left open for want of quote: not even
      one more lot of it could be paid for. */
  ghost predicate ExhaustedFrom(s: Matched, m: Matched, limit: int)
  {
    |s.done| < |m.done| && Last(m.done).remain != 0 && m.taker.remain != 0 ==> limit - m.quoteSum < Last(m.done).price
  }

  lemma {:induction false} OpenMakerExhaustsBudget(c: MarketConf, s: Matched, limit: int, maxId: nat)
    requires LoopOk(c, s, limit, maxId) && Sorted(MakerSide(s), s.rest)
    ensures Match(c, s, limit).Ended?
    ensures ExhaustedFrom(s, Match(c, s, limit).s, limit)
    decreases |s.rest|
  {
    MatchTakes(c, s, limit, maxId);
    TurnKeepsLoop(c, s, limit, maxId);
    if Turn(c, s, limit).Go? {
      var s' := Turn(c, s, limit).next;
      OpenMakerExhaustsBudget(c, s', limit, maxId);
      if Last(s'.done).remain != 0 {
        OpenMakerStopsLoop(c, s, limit, maxId);
        if s'.taker.remain != 0 {
          OpenTurnExhaustsBudget(c, s, limit, maxId);
        }
      } else {
        MatchTakes(c, s', limit, maxId);
        if |Match(c, s, limit).s.done| == |s'.done| {
          ClosedMakerStays(s', Match(c, s, limit).s);
        }
      }
    }
  }

  lemma ClosedMakerStays(s: Matched, m: Matched)
    requires Took(s, m) && s.done != [] && |m.done| == |s.done|
    ensures Last(m.done) == Last(s.done)
  {
    assert m.done[..|s.done|] == m.done;
  }

  /** A market bid spends at most its limit.  If it ends unfilled while asks remain, and the next one
      is not its own user's, its unspent quote does not buy one more lot at the best price left. */
  lemma MarketBidUsesItsBudget(c: MarketConf, s: Matched, limit: int, maxId: nat)
    requires LoopOk(c, s, limit, maxId) && Sorted(MakerSide(s), s.rest)
    requires s.done == [] && s.quoteSum == 0 && s.taker.finishedQuote == 0
    requires s.taker.kind == MARKET && s.taker.side == BID && !s.taker.postOnly
    ensures Match(c, s, limit).Ended?
    ensures var m := Match(c, s, limit).s;
            var left := Survivors(m.done) + m.rest;
            && m.taker.finishedQuote <= limit
            && (m.taker.remain != 0 && left != [] && left[0].user != s.taker.user ==>
                  limit - m.taker.finishedQuote < left[0].price)
  {
    MatchIsGreedy(c, s, limit, maxId);
    MatchIsSafe(c, s, limit, maxId);
    MatchTakes(c, s, limit, maxId);
    MatchEmptiesInOrder(c, s, limit, maxId);
    MatchStopsForReason(c, s, limit, maxId);
    OpenMakerExhaustsBudget(c, s, limit, maxId);
    var m := Match(c, s, limit).s;
    SurvivorsAreSuffix(m.done);
  }
}
