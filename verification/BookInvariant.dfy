/** One market between operations: the invariant of its book and of the funds behind it, and the
    proof that every operation keeps both. */
module BookInvariant {
  import opened Types
  import opened Orders
  import opened Ledger
  import opened Matching
  import opened MatchLoop
  import opened MatchShape

  ghost predicate SideOk(c: MarketConf, side: OrderSide, s: seq<Order>, maxId: nat)
  {
    Sorted(side, s) && AllWorking(c, side, s, maxId) && AllOpen(s) && DistinctIds(s)
  }

  ghost predicate BookOk(c: MarketConf, b: Book, maxId: nat)
  {
    && SideOk(c, ASK, b.asks, maxId)
    && SideOk(c, BID, b.bids, maxId)
    && Apart(b.asks, b.bids)
  }

  /** What this market's open orders of a user have frozen in an asset. */
  ghost function BookFrozen(c: MarketConf, b: Book, user: Uuid, a: Asset): int
  {
    (if a == c.base then FrozenOf(b.asks, user) else 0) + (if a == c.quote then FrozenOf(b.bids, user) else 0)
  }

  function BookCount(b: Book, user: Uuid): nat
  {
    CountOf(b.asks, user) + CountOf(b.bids, user)
  }

  /** A market between operations, whether or not users may trade with themselves. */
  ghost predicate VenueSound(c: MarketConf, v: Venue)
  {
    && SafeConf(c)
    && BookOk(c, v.book, v.counters.orderId)
    && NoneNegative(v.funds.balances)
    && TradeIdsUpTo(v.funds.cache, v.counters.tradeId)
    && forall user, a :: BookFrozen(c, v.book, user, a) <= Get(v.funds.balances, BalanceKey(user, FREEZE, a))
  }

  ghost predicate VenueOk(c: MarketConf, v: Venue)
  {
    VenueSound(c, v) && c.disableSelfTrade
  }

  /** The frozen balances moved exactly as the book's frozen amounts did, in every asset. */
  ghost predicate FrozenMoved(c: MarketConf, b: Book, f: Balances, b': Book, f': Balances)
  {
    forall user, a :: Get(f', BalanceKey(user, FREEZE, a)) - Get(f, BalanceKey(user, FREEZE, a))
                   == BookFrozen(c, b', user, a) - BookFrozen(c, b, user, a)
  }

  /** What the engine assumes of a request and does not check. */
  predicate Sensible(input: OrderInput)
  {
    0 <= input.price && 0 <= input.quoteLimit && input.takerFee <= FEE_ONE && input.makerFee <= FEE_ONE
  }

  // ---------------------------------------------------------------- the counter side

  lemma {:induction false} FinishedHaveNothingFrozen(c: MarketConf, side: OrderSide, s: seq<Order>, maxId: nat, user: Uuid)
    requires AllWorking(c, side, s, maxId) && AllFinished(s)
    ensures FrozenOf(s, user) == 0
  {
    if s != [] {
      FinishedHaveNothingFrozen(c, side, s[..|s| - 1], maxId, user);
      assert Working(c, side, s[|s| - 1], maxId) && s[|s| - 1].remain == 0;
    }
  }

  lemma {:induction false} CountOfSameOrders(s: seq<Order>, t: seq<Order>, user: Uuid)
    requires |s| == |t| && forall i | 0 <= i < |s| :: SameOrder(s[i], t[i])
    ensures CountOf(s, user) == CountOf(t, user)
  {
    if s != [] {
      assert SameOrder(s[|s| - 1], t[|t| - 1]);
      CountOfSameOrders(s[..|s| - 1], t[..|t| - 1], user);
    }
  }

  /** The counter side after matching is a suffix of what it was, apart from the first order's fill. */
  ghost predicate SuffixOf(s: seq<Order>, t: seq<Order>)
  {
    |t| <= |s| && forall i | 0 <= i < |t| :: SameOrder(s[|s| - |t| + i], t[i])
  }

  lemma SuffixCounts(s: seq<Order>, t: seq<Order>, user: Uuid)
    requires SuffixOf(s, t)
    ensures CountOf(t, user) <= CountOf(s, user)
  {
    var n := |s| - |t|;
    assert s == s[..n] + s[n..];
    FrozenOfConcat(s[..n], s[n..], user);
    CountOfSameOrders(s[n..], t, user);
  }

  lemma SuffixKeepsOrder(side: OrderSide, s: seq<Order>, t: seq<Order>)
    requires SuffixOf(s, t) && Sorted(side, s) && DistinctIds(s)
    ensures Sorted(side, t) && DistinctIds(t)
  {
    var n := |s| - |t|;
    forall i, j | 0 <= i < j < |t|
      ensures Before(side, KeyOf(t[i]), KeyOf(t[j])) && t[i].id != t[j].id
    {
      assert SameOrder(s[n + i], t[i]) && SameOrder(s[n + j], t[j]);
    }
  }

  /** The makers of a matching run that started with `was`, in their new state. */
  ghost predicate Worked(c: MarketConf, side: OrderSide, was: seq<Order>, done: seq<Order>, rest: seq<Order>, maxId: nat)
  {
    && |done| + |rest| == |was|
    && (forall i | 0 <= i < |was| :: SameOrder(was[i], (done + rest)[i]))
    && (forall i | 0 <= i < |was| :: Working(c, side, (done + rest)[i], maxId))
    && (forall i | 0 <= i < |done| - 1 :: done[i].remain == 0)
    && AllOpen(rest)
  }

  lemma WorkedLeavesTail(c: MarketConf, side: OrderSide, was: seq<Order>, done: seq<Order>, rest: seq<Order>, maxId: nat)
    requires Worked(c, side, was, done, rest, maxId)
    ensures Survivors(done) + rest == (done + rest)[FinishedCount(done)..]
    ensures AllFinished((done + rest)[..FinishedCount(done)])
  {
    SurvivorsAreSuffix(done);
    CutFirst(done, rest, FinishedCount(done));
  }

  lemma TailIsSuffix(was: seq<Order>, all: seq<Order>, n: nat)
    requires |all| == |was| && n <= |was| && forall i | 0 <= i < |was| :: SameOrder(was[i], all[i])
    ensures SuffixOf(was, all[n..])
  {
  }

  lemma WorkedLeavesSuffix(c: MarketConf, side: OrderSide, was: seq<Order>, done: seq<Order>, rest: seq<Order>, maxId: nat)
    requires Worked(c, side, was, done, rest, maxId)
    ensures SuffixOf(was, Survivors(done) + rest)
  {
    WorkedLeavesTail(c, side, was, done, rest, maxId);
    TailIsSuffix(was, done + rest, FinishedCount(done));
  }

  lemma WorkedLeavesOpen(c: MarketConf, side: OrderSide, was: seq<Order>, done: seq<Order>, rest: seq<Order>, maxId: nat)
    requires Worked(c, side, was, done, rest, maxId)
    ensures AllWorking(c, side, Survivors(done) + rest, maxId) && AllOpen(Survivors(done) + rest)
  {
    WorkedLeavesTail(c, side, was, done, rest, maxId);
    TailIsWorking(c, side, done + rest, FinishedCount(done), maxId);
    assert forall i | 0 <= i < |done| :: (done + rest)[i] == done[i];
    SurvivorsAreOpen(done);
  }

  lemma {:induction false} SurvivorsAreOpen(done: seq<Order>)
    requires forall i | 0 <= i < |done| :: 0 <= done[i].remain
    ensures AllOpen(Survivors(done))
  {
    if done != [] {
      SurvivorsAreOpen(done[..|done| - 1]);
    }
  }

  lemma TailIsWorking(c: MarketConf, side: OrderSide, all: seq<Order>, n: nat, maxId: nat)
    requires n <= |all| && forall i | 0 <= i < |all| :: Working(c, side, all[i], maxId)
    ensures AllWorking(c, side, all[n..], maxId)
  {
  }

  lemma WorkedKeepsFrozen(c: MarketConf, side: OrderSide, was: seq<Order>, done: seq<Order>, rest: seq<Order>, maxId: nat, user: Uuid)
    requires Worked(c, side, was, done, rest, maxId)
    ensures FrozenOf(Survivors(done) + rest, user) == FrozenOf(done + rest, user)
  {
    WorkedLeavesTail(c, side, was, done, rest, maxId);
    var all, n := done + rest, FinishedCount(done);
    FrozenSplit(all, n, user);
    FinishedHaveNothingFrozen(c, side, all[..n], maxId, user);
  }

  lemma FrozenSplit(s: seq<Order>, n: nat, user: Uuid)
    requires n <= |s|
    ensures FrozenOf(s, user) == FrozenOf(s[..n], user) + FrozenOf(s[n..], user)
  {
    assert s == s[..n] + s[n..];
    FrozenOfConcat(s[..n], s[n..], user);
  }

  lemma WorkedKeepsSide(c: MarketConf, side: OrderSide, was: seq<Order>, done: seq<Order>, rest: seq<Order>, maxId: nat)
    requires Worked(c, side, was, done, rest, maxId) && SideOk(c, side, was, maxId)
    ensures SideOk(c, side, Survivors(done) + rest, maxId)
  {
    WorkedLeavesSuffix(c, side, was, done, rest, maxId);
    WorkedLeavesOpen(c, side, was, done, rest, maxId);
    SuffixKeepsOrder(side, was, Survivors(done) + rest);
  }

  lemma MatchWorks(c: MarketConf, s: Matched, limit: int, maxId: nat)
    requires s.done == [] && LoopOk(c, s, limit, maxId) && Sorted(MakerSide(s), s.rest)
    ensures Match(c, s, limit).Ended?
    ensures var m := Match(c, s, limit).s;
            && Worked(c, MakerSide(s), s.rest, m.done, m.rest, maxId)
            && SameOrder(s.taker, m.taker) && m.taker.frozen == s.taker.frozen
            && TakerOk(m.taker)
  {
    MatchIsSafe(c, s, limit, maxId);
    MatchTakes(c, s, limit, maxId);
    MatchEmptiesInOrder(c, s, limit, maxId);
  }

  /** A limit taker that is left over no longer meets any price on the counter side. */
  lemma RestingTakerDoesNotCross(c: MarketConf, s: Matched, limit: int, maxId: nat)
    requires s.done == [] && LoopOk(c, s, limit, maxId) && Sorted(MakerSide(s), s.rest)
    requires Match(c, s, limit).Ended? && Rests(Match(c, s, limit).s, Match(c, s, limit).needCancel)
    ensures var m := Match(c, s, limit).s;
            forall i | 0 <= i < |Survivors(m.done) + m.rest| :: !Crosses(m.taker, (Survivors(m.done) + m.rest)[i])
  {
    var m := Match(c, s, limit).s;
    RestingTakerEmptied(c, s, limit, maxId);
    assert Survivors(m.done) + m.rest == m.rest;
    NoneCross(m.taker, m.rest);
  }

  lemma RestingTakerEmptied(c: MarketConf, s: Matched, limit: int, maxId: nat)
    requires s.done == [] && LoopOk(c, s, limit, maxId) && Sorted(MakerSide(s), s.rest)
    requires Match(c, s, limit).Ended? && Rests(Match(c, s, limit).s, Match(c, s, limit).needCancel)
    ensures var m := Match(c, s, limit).s;
            && Survivors(m.done) == [] && Sorted(Opposite(m.taker.side), m.rest)
            && (m.rest != [] ==> !Crosses(m.taker, m.rest[0]))
  {
    var m := Match(c, s, limit).s;
    MatchEmptiesInOrder(c, s, limit, maxId);
    MatchTakes(c, s, limit, maxId);
    MatchStopsForReason(c, s, limit, maxId);
    NothingOpenSurvives(m.done);
    SortedTail(MakerSide(s), s.rest, |m.done|);
  }

  lemma NothingOpenSurvives(done: seq<Order>)
    requires forall i | 0 <= i < |done| - 1 :: done[i].remain == 0
    requires done != [] ==> Last(done).remain == 0
    ensures Survivors(done) == []
  {
    SurvivorsAreSuffix(done);
  }

  lemma SortedTail(side: OrderSide, s: seq<Order>, n: nat)
    requires Sorted(side, s) && n <= |s|
    ensures Sorted(side, s[n..])
  {
  }

  lemma NoneCross(taker: Order, s: seq<Order>)
    requires Sorted(Opposite(taker.side), s)
    requires s == [] || !Crosses(taker, s[0])
    ensures forall i | 0 <= i < |s| :: !Crosses(taker, s[i])
  {
    forall i | 0 < i < |s|
      ensures !Crosses(taker, s[i])
    {
      assert Before(Opposite(taker.side), KeyOf(s[0]), KeyOf(s[i]));
    }
  }

  // ---------------------------------------------------------------- executing an order

  ghost predicate Ready(c: MarketConf, v: Venue, taker: Order, limit: int)
  {
    && VenueOk(c, v) && TakerOk(taker) && taker.market == c.name
    && taker.id == v.counters.orderId
    && taker.frozen == 0
    && IdsBelow(v.book, taker.id)
    && Budget(c, Start(taker, v.book.Side(Opposite(taker.side)), v), limit)
       <= Get(v.funds.balances, BalanceKey(taker.user, AVAILABLE, PayAsset(c, taker.side)))
    && (taker.kind == MARKET && !taker.IsAsk() ==> 0 <= limit)
  }

  lemma StartIsLoopOk(c: MarketConf, v: Venue, taker: Order, limit: int)
    requires Ready(c, v, taker, limit)
    ensures var counter := v.book.Side(Opposite(taker.side));
            && LoopOk(c, Start(taker, counter, v), limit, v.counters.orderId)
            && SideOk(c, Opposite(taker.side), counter, v.counters.orderId)
  {
    var side := Opposite(taker.side);
    assert [] + v.book.Side(side) == v.book.Side(side);
    SideIsCovered(c, v, side);
    SideIsSound(c, v, side);
  }

  lemma SideIsSound(c: MarketConf, v: Venue, side: OrderSide)
    requires VenueOk(c, v)
    ensures SideOk(c, side, v.book.Side(side), v.counters.orderId)
  {
  }

  /** What a side has frozen is there. */
  lemma SideIsCovered(c: MarketConf, v: Venue, side: OrderSide)
    requires VenueOk(c, v)
    ensures Covered(v.funds.balances, PayAsset(c, side), v.book.Side(side))
  {
    forall user
      ensures FrozenOf(v.book.Side(side), user) <= Get(v.funds.balances, BalanceKey(user, FREEZE, PayAsset(c, side)))
    {
      assert BookFrozen(c, v.book, user, PayAsset(c, side)) == FrozenOf(v.book.Side(side), user);
    }
  }

  /** The rested taker's side: still sorted, distinct and sound, with the taker added. */
  lemma RestingKeepsSide(c: MarketConf, side: OrderSide, s: seq<Order>, o: Order)
    requires SideOk(c, side, s, o.id)
    requires forall i | 0 <= i < |s| :: s[i].id < o.id
    requires Working(c, side, o, o.id) && 0 < o.remain
    ensures SideOk(c, side, Insert(side, s, o), o.id)
  {
    InsertKeepsSorted(side, s, o);
    InsertedElements(side, s, o);
    InsertKeepsDistinct(side, s, o);
  }

  lemma InsertedElements(side: OrderSide, s: seq<Order>, o: Order)
    ensures forall i | 0 <= i < |Insert(side, s, o)| ::
              Insert(side, s, o)[i] == o || exists j | 0 <= j < |s| :: s[j] == Insert(side, s, o)[i]
  {
    var i := InsertSplits(side, s, o);
    var r := Insert(side, s, o);
    forall k | 0 <= k < |r|
      ensures r[k] == o || exists j | 0 <= j < |s| :: s[j] == r[k]
    {
      if k != i {
        assert r[k] == s[if k < i then k else k - 1];
      }
    }
  }

  lemma InsertKeepsDistinct(side: OrderSide, s: seq<Order>, o: Order)
    requires DistinctIds(s) && forall i | 0 <= i < |s| :: s[i].id != o.id
    ensures DistinctIds(Insert(side, s, o))
  {
    var i := InsertSplits(side, s, o);
    var r := Insert(side, s, o);
    forall j, k | 0 <= j < k < |r|
      ensures r[j].id != r[k].id
    {
      assert j != i ==> r[j] == s[if j < i then j else j - 1];
      assert k != i ==> r[k] == s[if k < i then k else k - 1];
    }
  }

  /** Two sides with disjoint ids and no crossing prices. */
  ghost predicate Apart(asks: seq<Order>, bids: seq<Order>)
  {
    forall i, j | 0 <= i < |asks| && 0 <= j < |bids| :: asks[i].id != bids[j].id && bids[j].price < asks[i].price
  }

  lemma SuffixStaysApart(side: OrderSide, s: seq<Order>, t: seq<Order>, counter: seq<Order>)
    requires SuffixOf(s, t)
    requires if side == ASK then Apart(s, counter) else Apart(counter, s)
    ensures if side == ASK then Apart(t, counter) else Apart(counter, t)
  {
    var n := |s| - |t|;
    forall i | 0 <= i < |t|
      ensures t[i].id == s[n + i].id && t[i].price == s[n + i].price
    {
      assert SameOrder(s[n + i], t[i]);
    }
  }

  lemma AddedStaysApart(o: Order, own: seq<Order>, own': seq<Order>, counter: seq<Order>)
    requires forall i | 0 <= i < |own'| :: own'[i] == o || exists j | 0 <= j < |own| :: own[j] == own'[i]
    requires forall i | 0 <= i < |counter| :: counter[i].id < o.id && !Crosses(o, counter[i])
    requires if o.side == ASK then Apart(own, counter) else Apart(counter, own)
    ensures if o.side == ASK then Apart(own', counter) else Apart(counter, own')
  {
  }

  lemma SuffixIdsBelow(s: seq<Order>, t: seq<Order>, id: nat)
    requires SuffixOf(s, t) && forall i | 0 <= i < |s| :: s[i].id < id
    ensures forall i | 0 <= i < |t| :: t[i].id < id
  {
    forall i | 0 <= i < |t|
      ensures t[i].id < id
    {
      assert SameOrder(s[|s| - |t| + i], t[i]);
    }
  }

  ghost predicate IdsBelow(b: Book, id: nat)
  {
    && (forall i | 0 <= i < |b.asks| :: b.asks[i].id < id)
    && (forall i | 0 <= i < |b.bids| :: b.bids[i].id < id)
  }

  lemma AfterMatchBook(c: MarketConf, v: Venue, m: Matched, needCancel: bool, id: nat)
    requires BookOk(c, v.book, id) && IdsBelow(v.book, id) && m.taker.id == id && m.taker.market == c.name
    requires TakerOk(m.taker)
    requires Worked(c, Opposite(m.taker.side), v.book.Side(Opposite(m.taker.side)), m.done, m.rest, id)
    requires Rests(m, needCancel) ==>
               forall i | 0 <= i < |Survivors(m.done) + m.rest| :: !Crosses(m.taker, (Survivors(m.done) + m.rest)[i])
    ensures BookOk(c, AfterMatch(c, v, m, needCancel).venue.book, id)
  {
    var side := m.taker.side;
    var own, was, counter := v.book.Side(side), v.book.Side(Opposite(side)), Survivors(m.done) + m.rest;
    WorkedKeepsSide(c, Opposite(side), was, m.done, m.rest, id);
    WorkedLeavesSuffix(c, Opposite(side), was, m.done, m.rest, id);
    SuffixStaysApart(Opposite(side), was, counter, own);
    SuffixIdsBelow(was, counter, id);
    if Rests(m, needCancel) {
      var o := WithBacking(c, m.taker);
      RestingKeepsSide(c, side, own, o);
      InsertedElements(side, own, o);
      AddedStaysApart(o, own, Insert(side, own, o), counter);
    }
  }

  /** The book stays sorted, distinct, backed and uncrossed. */
  lemma ExecuteKeepsBook(c: MarketConf, v: Venue, taker: Order, limit: int)
    requires Ready(c, v, taker, limit)
    ensures Execute(c, v, taker, limit).Some?
    ensures BookOk(c, Execute(c, v, taker, limit).value.venue.book, taker.id)
  {
    StartIsLoopOk(c, v, taker, limit);
    var s := Start(taker, v.book.Side(Opposite(taker.side)), v);
    MatchWorks(c, s, limit, taker.id);
    var Ended(m, needCancel) := Match(c, s, limit);
    if Rests(m, needCancel) {
      RestingTakerDoesNotCross(c, s, limit, taker.id);
    }
    AfterMatchBook(c, v, m, needCancel, taker.id);
  }

  lemma AfterMatchFrozen(c: MarketConf, v: Venue, m: Matched, needCancel: bool, user: Uuid, a: Asset)
    requires c.base != c.quote
    requires m.taker.frozen == 0
    requires FrozenOf(Survivors(m.done) + m.rest, user) == FrozenOf(m.done + m.rest, user)
    requires Get(m.funds.balances, BalanceKey(user, FREEZE, a)) - Get(v.funds.balances, BalanceKey(user, FREEZE, a))
          == if a == PayAsset(c, Opposite(m.taker.side))
             then FrozenOf(m.done + m.rest, user) - FrozenOf(v.book.Side(Opposite(m.taker.side)), user) else 0
    ensures var v' := AfterMatch(c, v, m, needCancel).venue;
            Get(v'.funds.balances, BalanceKey(user, FREEZE, a)) - Get(v.funds.balances, BalanceKey(user, FREEZE, a))
            == BookFrozen(c, v'.book, user, a) - BookFrozen(c, v.book, user, a)
  {
    var side := m.taker.side;
    InsertAddsFrozen(side, v.book.Side(side), WithBacking(c, m.taker), user);
  }

  lemma MatchMovesFrozen(c: MarketConf, s: Matched, limit: int, maxId: nat, user: Uuid, a: Asset)
    requires s.done == [] && LoopOk(c, s, limit, maxId)
    ensures Match(c, s, limit).Ended?
    ensures var m := Match(c, s, limit).s;
            Get(m.funds.balances, BalanceKey(user, FREEZE, a)) - Get(s.funds.balances, BalanceKey(user, FREEZE, a))
            == if a == PayAsset(c, MakerSide(s)) then FrozenOf(m.done + m.rest, user) - FrozenOf(s.rest, user) else 0
  {
    MatchIsSafe(c, s, limit, maxId);
    assert s.done + s.rest == s.rest;
  }

  lemma ExecuteMovesFrozenAt(c: MarketConf, v: Venue, taker: Order, limit: int, user: Uuid, a: Asset)
    requires Ready(c, v, taker, limit)
    ensures Execute(c, v, taker, limit).Some?
    ensures var v' := Execute(c, v, taker, limit).value.venue;
            Get(v'.funds.balances, BalanceKey(user, FREEZE, a)) - Get(v.funds.balances, BalanceKey(user, FREEZE, a))
            == BookFrozen(c, v'.book, user, a) - BookFrozen(c, v.book, user, a)
  {
    StartIsLoopOk(c, v, taker, limit);
    var was := v.book.Side(Opposite(taker.side));
    var s := Start(taker, was, v);
    MatchWorks(c, s, limit, taker.id);
    MatchMovesFrozen(c, s, limit, taker.id, user, a);
    var Ended(m, needCancel) := Match(c, s, limit);
    WorkedKeepsFrozen(c, Opposite(taker.side), was, m.done, m.rest, taker.id, user);
    AfterMatchFrozen(c, v, m, needCancel, user, a);
  }

  /** Frozen balances keep matching the orders they back. */
  lemma ExecuteMovesFrozen(c: MarketConf, v: Venue, taker: Order, limit: int)
    requires Ready(c, v, taker, limit)
    ensures Execute(c, v, taker, limit).Some?
    ensures var v' := Execute(c, v, taker, limit).value.venue;
            FrozenMoved(c, v.book, v.funds.balances, v'.book, v'.funds.balances)
  {
    StartIsLoopOk(c, v, taker, limit);
    MatchIsSafe(c, Start(taker, v.book.Side(Opposite(taker.side)), v), limit, taker.id);
    var v' := Execute(c, v, taker, limit).value.venue;
    forall user, a
      ensures Get(v'.funds.balances, BalanceKey(user, FREEZE, a)) - Get(v.funds.balances, BalanceKey(user, FREEZE, a))
           == BookFrozen(c, v'.book, user, a) - BookFrozen(c, v.book, user, a)
    {
      ExecuteMovesFrozenAt(c, v, taker, limit, user, a);
    }
  }

  lemma ExecuteCounts(c: MarketConf, v: Venue, taker: Order, limit: int, user: Uuid)
    requires Ready(c, v, taker, limit)
    ensures Execute(c, v, taker, limit).Some?
    ensures BookCount(Execute(c, v, taker, limit).value.venue.book, user)
         <= BookCount(v.book, user) + if user == taker.user then 1 else 0
  {
    StartIsLoopOk(c, v, taker, limit);
    var side := taker.side;
    var was := v.book.Side(Opposite(side));
    var s := Start(taker, was, v);
    MatchWorks(c, s, limit, taker.id);
    var m := Match(c, s, limit).s;
    WorkedLeavesSuffix(c, Opposite(side), was, m.done, m.rest, taker.id);
    SuffixCounts(was, Survivors(m.done) + m.rest, user);
    InsertAddsFrozen(side, v.book.Side(side), WithBacking(c, m.taker), user);
  }

  ghost function Ids(s: seq<Order>): set<nat>
  {
    set i | 0 <= i < |s| :: s[i].id
  }

  ghost function BookIds(b: Book): set<nat>
  {
    Ids(b.asks) + Ids(b.bids)
  }

  lemma SuffixIds(s: seq<Order>, t: seq<Order>)
    requires SuffixOf(s, t)
    ensures Ids(t) <= Ids(s)
  {
    forall i | 0 <= i < |t|
      ensures t[i].id in Ids(s)
    {
      assert SameOrder(s[|s| - |t| + i], t[i]);
    }
  }

  lemma InsertIds(side: OrderSide, s: seq<Order>, o: Order)
    ensures Ids(Insert(side, s, o)) <= Ids(s) + {o.id}
  {
    InsertedElements(side, s, o);
  }

  /** No order enters the book but the taker. */
  lemma ExecuteIds(c: MarketConf, v: Venue, taker: Order, limit: int)
    requires Ready(c, v, taker, limit)
    ensures Execute(c, v, taker, limit).Some?
    ensures BookIds(Execute(c, v, taker, limit).value.venue.book) <= BookIds(v.book) + {taker.id}
  {
    StartIsLoopOk(c, v, taker, limit);
    var side := taker.side;
    var was := v.book.Side(Opposite(side));
    var s := Start(taker, was, v);
    MatchWorks(c, s, limit, taker.id);
    var m := Match(c, s, limit).s;
    WorkedLeavesSuffix(c, Opposite(side), was, m.done, m.rest, taker.id);
    SuffixIds(was, Survivors(m.done) + m.rest);
    InsertIds(side, v.book.Side(side), WithBacking(c, m.taker));
  }

  lemma {:induction false} FinishEventsChargeNothing(done: seq<Order>, a: Asset)
    ensures FeesCharged(FinishEvents(done), a) == 0
  {
    if done != [] {
      var last: seq<Event> := if done[|done| - 1].remain == 0 then [OrderEvent(done[|done| - 1], FINISH)] else [];
      FinishEventsChargeNothing(done[..|done| - 1], a);
      FeesConcat(FinishEvents(done[..|done| - 1]), last, a);
      assert FeesCharged(last, a) == 0;
    }
  }

  lemma AfterMatchConserves(c: MarketConf, v: Venue, m: Matched, needCancel: bool, a: Asset)
    ensures var placed := AfterMatch(c, v, m, needCancel);
            Total(placed.venue.funds.balances, a) + FeesCharged(placed.events, a)
            == Total(m.funds.balances, a) + FeesCharged(m.events, a)
  {
    var last := [OrderEvent(m.taker, FINISH)];
    FreezingConserves(m.funds.balances, m.taker.user, PayAsset(c, m.taker.side), WithBacking(c, m.taker).frozen, a);
    FinishEventsChargeNothing(m.done, a);
    FeesConcat(m.events, FinishEvents(m.done), a);
    FeesConcat(m.events + FinishEvents(m.done), last, a);
    assert last[..0] == [];
    assert FeesCharged(last, a) == 0;
  }

  /** Executing an order takes nothing but its trades' fees out of the ledger. */
  lemma ExecuteConserves(c: MarketConf, v: Venue, taker: Order, limit: int, a: Asset)
    requires Ready(c, v, taker, limit)
    ensures Execute(c, v, taker, limit).Some?
    ensures var placed := Execute(c, v, taker, limit).value;
            Total(placed.venue.funds.balances, a) + FeesCharged(placed.events, a) == Total(v.funds.balances, a)
  {
    StartIsLoopOk(c, v, taker, limit);
    var s := Start(taker, v.book.Side(Opposite(taker.side)), v);
    MatchIsSafe(c, s, limit, taker.id);
    var Ended(m, needCancel) := Match(c, s, limit);
    AfterMatchConserves(c, v, m, needCancel, a);
    assert s.events[..0] == [];
    assert FeesCharged(s.events, a) == 0;
  }

  lemma FreezingStaysNonNegative(b: Balances, user: Uuid, asset: Asset, amount: int)
    requires NoneNegative(b) && 0 <= amount <= Get(b, BalanceKey(user, AVAILABLE, asset))
    ensures NoneNegative(Frozen(b, user, asset, amount))
  {
    GetNonNegative(b);
  }

  lemma ExecuteKeepsFunds(c: MarketConf, v: Venue, taker: Order, limit: int)
    requires Ready(c, v, taker, limit)
    ensures Execute(c, v, taker, limit).Some?
    ensures var placed := Execute(c, v, taker, limit).value;
            && NoneNegative(placed.venue.funds.balances)
            && v.counters.tradeId <= placed.venue.counters.tradeId
            && TradeIdsUpTo(placed.venue.funds.cache, placed.venue.counters.tradeId)
            && placed.venue.counters == v.counters.(tradeId := placed.venue.counters.tradeId)
  {
    StartIsLoopOk(c, v, taker, limit);
    var s := Start(taker, v.book.Side(Opposite(taker.side)), v);
    MatchIsSafe(c, s, limit, taker.id);
    MatchWorks(c, s, limit, taker.id);
    var Ended(m, needCancel) := Match(c, s, limit);
    if Rests(m, needCancel) {
      var o := WithBacking(c, m.taker);
      assert o.frozen == Budget(c, m, limit);
      ProductMonotone(0, o.remain, if o.IsAsk() then c.lot else o.price);
      FreezingStaysNonNegative(m.funds.balances, o.user, PayAsset(c, o.side), o.frozen);
    }
  }
}
