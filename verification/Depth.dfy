/** What the market shows of its book: the depth, grouped into price levels, and its status. */
module Depth {
  import opened Types
  import opened Orders
  import opened Matching
  import opened MatchLoop
  import opened BookInvariant

  datatype PriceInfo = PriceInfo(price: int, amount: int)

  datatype MarketDepth = MarketDepth(asks: seq<PriceInfo>, bids: seq<PriceInfo>)

  datatype MarketStatus = MarketStatus(askCount: nat, askAmount: int, bidCount: nat, bidAmount: int, tradeCount: nat)

  /** Division rounded up or down; the divisor may be negative. */
  function CeilDiv(x: int, y: int): int
    requires y != 0
  {
    if y > 0 then -(-x / y) else -(x / -y)
  }

  function FloorDiv(x: int, y: int): int
    requires y != 0
  {
    if y > 0 then x / y else -x / -y
  }

  /** The level an order is shown at: its price, or its price rounded away from the other side to a
      multiple of the interval.  A price unit is worth `unit` of the units the interval counts in. */
  function Level(side: OrderSide, unit: Pos, interval: int, o: Order): int
  {
    var price := o.price * unit;
    if interval == 0 then price
    else if side == ASK then CeilDiv(price, interval) * interval
    else FloorDiv(price, interval) * interval
  }

  function Remains(s: seq<Order>): int
  {
    if s == [] then 0 else s[0].remain + Remains(s[1..])
  }

  /** How many orders at the front of the side share the first one's level. */
  function RunLength(side: OrderSide, unit: Pos, interval: int, level: int, s: seq<Order>): (n: nat)
    ensures n <= |s|
    ensures forall i | 0 <= i < n :: Level(side, unit, interval, s[i]) == level
    ensures n < |s| ==> Level(side, unit, interval, s[n]) != level
  {
    if s == [] || Level(side, unit, interval, s[0]) != level then 0
    else 1 + RunLength(side, unit, interval, level, s[1..])
  }

  /** Groups consecutive orders of one level; no order is moved to find others of its level. */
  function Groups(side: OrderSide, unit: Pos, interval: int, s: seq<Order>): seq<PriceInfo>
    decreases |s|
  {
    if s == [] then []
    else
      var level := Level(side, unit, interval, s[0]);
      var n := RunLength(side, unit, interval, level, s);
      [PriceInfo(level, Remains(s[..n]))] + Groups(side, unit, interval, s[n..])
  }

  function Take(groups: seq<PriceInfo>, limit: nat): seq<PriceInfo>
  {
    if |groups| <= limit then groups else groups[..limit]
  }

  function DepthOf(b: Book, unit: Pos, limit: nat, interval: int): MarketDepth
  {
    MarketDepth(Take(Groups(ASK, unit, interval, b.asks), limit), Take(Groups(BID, unit, interval, b.bids), limit))
  }

  function StatusOf(b: Book): MarketStatus
  {
    MarketStatus(|b.asks|, Remains(b.asks), |b.bids|, Remains(b.bids), b.tradeCount)
  }

  // ---------------------------------------------------------------- grouping runs is grouping levels

  /** Asks are shown from the lowest level up, bids from the highest down. */
  predicate Ahead(side: OrderSide, x: int, y: int)
  {
    if side == ASK then x < y else y < x
  }

  lemma FloorMonotone(x: int, y: int, d: int)
    requires 0 < d && x <= y
    ensures x / d <= y / d
  {
    if y / d + 1 <= x / d {
      ScaleMonotone(y / d + 1, x / d, d);
    }
  }

  lemma ScaleMonotone(x: int, y: int, k: int)
    requires x <= y
    ensures 0 <= k ==> x * k <= y * k
    ensures k <= 0 ==> y * k <= x * k
  {
  }

  /** Rounding keeps the order of prices, whatever the interval. */
  lemma LevelMonotone(side: OrderSide, unit: Pos, interval: int, o: Order, p: Order)
    requires o.price <= p.price
    ensures Level(side, unit, interval, o) <= Level(side, unit, interval, p)
  {
    var x, y := o.price * unit, p.price * unit;
    ScaleMonotone(o.price, p.price, unit);
    if interval != 0 {
      var d := if interval > 0 then interval else -interval;
      FloorMonotone(x, y, d);
      FloorMonotone(-y, -x, d);
      if side == ASK {
        ScaleMonotone(if interval > 0 then CeilDiv(x, interval) else CeilDiv(y, interval),
                      if interval > 0 then CeilDiv(y, interval) else CeilDiv(x, interval), interval);
      } else {
        ScaleMonotone(if interval > 0 then FloorDiv(x, interval) else FloorDiv(y, interval),
                      if interval > 0 then FloorDiv(y, interval) else FloorDiv(x, interval), interval);
      }
    }
  }

  lemma LaterNotAhead(side: OrderSide, unit: Pos, interval: int, s: seq<Order>, i: nat, j: nat)
    requires Sorted(side, s) && i <= j < |s|
    ensures !Ahead(side, Level(side, unit, interval, s[j]), Level(side, unit, interval, s[i]))
  {
    if i < j {
      assert Before(side, KeyOf(s[i]), KeyOf(s[j]));
      if side == ASK {
        LevelMonotone(side, unit, interval, s[i], s[j]);
      } else {
        LevelMonotone(side, unit, interval, s[j], s[i]);
      }
    }
  }

  /** The remains of all orders of the side shown at a level, wherever they are in it. */
  function AmountAt(side: OrderSide, unit: Pos, interval: int, s: seq<Order>, level: int): int
  {
    if s == [] then 0
    else (if Level(side, unit, interval, s[0]) == level then s[0].remain else 0) + AmountAt(side, unit, interval, s[1..], level)
  }

  lemma {:induction false} AmountAtSplit(side: OrderSide, unit: Pos, interval: int, s: seq<Order>, n: nat, level: int)
    requires n <= |s|
    ensures AmountAt(side, unit, interval, s, level)
         == AmountAt(side, unit, interval, s[..n], level) + AmountAt(side, unit, interval, s[n..], level)
  {
    if n > 0 {
      AmountAtSplit(side, unit, interval, s[1..], n - 1, level);
      assert s[..n][1..] == s[1..][..n - 1];
    } else {
      assert s[..n] == [] && s[n..] == s;
    }
  }

  lemma {:induction false} AmountAtUniform(side: OrderSide, unit: Pos, interval: int, s: seq<Order>, at: int, level: int)
    requires forall i | 0 <= i < |s| :: Level(side, unit, interval, s[i]) == at
    ensures AmountAt(side, unit, interval, s, level) == if at == level then Remains(s) else 0
  {
    if s != [] {
      AmountAtUniform(side, unit, interval, s[1..], at, level);
    }
  }

  lemma {:induction false} AmountAtAbsent(side: OrderSide, unit: Pos, interval: int, s: seq<Order>, level: int)
    requires forall i | 0 <= i < |s| :: Level(side, unit, interval, s[i]) != level
    ensures AmountAt(side, unit, interval, s, level) == 0
  {
    if s != [] {
      AmountAtAbsent(side, unit, interval, s[1..], level);
    }
  }

  /** Every level after the first run is behind it. */
  lemma RestIsBehind(side: OrderSide, unit: Pos, interval: int, s: seq<Order>)
    requires s != [] && Sorted(side, s)
    ensures var level := Level(side, unit, interval, s[0]);
            var n := RunLength(side, unit, interval, level, s);
            && 0 < n && Sorted(side, s[n..])
            && forall i | n <= i < |s| :: Ahead(side, level, Level(side, unit, interval, s[i]))
  {
    var level := Level(side, unit, interval, s[0]);
    var n := RunLength(side, unit, interval, level, s);
    forall i | n <= i < |s|
      ensures Ahead(side, level, Level(side, unit, interval, s[i]))
    {
      LaterNotAhead(side, unit, interval, s, 0, n);
      LaterNotAhead(side, unit, interval, s, n, i);
    }
  }

  ghost predicate Shows(g: seq<PriceInfo>, level: int)
  {
    exists i :: 0 <= i < |g| && g[i].price == level
  }

  ghost predicate HasLevel(side: OrderSide, unit: Pos, interval: int, s: seq<Order>, level: int)
  {
    exists k :: 0 <= k < |s| && Level(side, unit, interval, s[k]) == level
  }

  lemma HasLevelSplit(side: OrderSide, unit: Pos, interval: int, s: seq<Order>, n: nat, level: int)
    requires 0 < n <= |s| && forall i | 0 <= i < n :: Level(side, unit, interval, s[i]) == Level(side, unit, interval, s[0])
    ensures HasLevel(side, unit, interval, s, level)
       <==> level == Level(side, unit, interval, s[0]) || HasLevel(side, unit, interval, s[n..], level)
  {
    if k :| 0 <= k < |s| && Level(side, unit, interval, s[k]) == level {
      assert k >= n ==> s[n..][k - n] == s[k];
    }
    if k :| 0 <= k < |s| - n && Level(side, unit, interval, s[n..][k]) == level {
      assert s[n..][k] == s[n + k];
    }
  }

  lemma ShowsFirst(first: PriceInfo, tail: seq<PriceInfo>, level: int)
    ensures Shows([first] + tail, level) <==> level == first.price || Shows(tail, level)
  {
    var g := [first] + tail;
    assert g[0] == first;
    if i :| 0 <= i < |tail| && tail[i].price == level {
      assert g[i + 1] == tail[i];
    }
  }

  /** A level is shown exactly when some order is at it. */
  lemma {:induction false} GroupsShowLevels(side: OrderSide, unit: Pos, interval: int, s: seq<Order>, level: int)
    ensures Shows(Groups(side, unit, interval, s), level) <==> HasLevel(side, unit, interval, s, level)
    decreases |s|
  {
    if s != [] {
      var first := Level(side, unit, interval, s[0]);
      var n := RunLength(side, unit, interval, first, s);
      GroupsShowLevels(side, unit, interval, s[n..], level);
      HasLevelSplit(side, unit, interval, s, n, level);
      ShowsFirst(PriceInfo(first, Remains(s[..n])), Groups(side, unit, interval, s[n..]), level);
    }
  }

  ghost predicate InOrder(side: OrderSide, g: seq<PriceInfo>)
  {
    forall i, j | 0 <= i < j < |g| :: Ahead(side, g[i].price, g[j].price)
  }

  /** Levels are strictly sorted, so no level is shown twice. */
  lemma {:induction false} GroupsInOrder(side: OrderSide, unit: Pos, interval: int, s: seq<Order>)
    requires Sorted(side, s)
    ensures InOrder(side, Groups(side, unit, interval, s))
    decreases |s|
  {
    if s != [] {
      var level := Level(side, unit, interval, s[0]);
      var n := RunLength(side, unit, interval, level, s);
      var tail := Groups(side, unit, interval, s[n..]);
      RestIsBehind(side, unit, interval, s);
      GroupsInOrder(side, unit, interval, s[n..]);
      forall i | 0 <= i < |tail|
        ensures Ahead(side, level, tail[i].price)
      {
        TailIsBehind(side, unit, interval, s, i);
      }
    }
  }

  lemma TailIsBehind(side: OrderSide, unit: Pos, interval: int, s: seq<Order>, i: nat)
    requires s != [] && Sorted(side, s)
    requires var n := RunLength(side, unit, interval, Level(side, unit, interval, s[0]), s); i < |Groups(side, unit, interval, s[n..])|
    ensures var level := Level(side, unit, interval, s[0]);
            Ahead(side, level, Groups(side, unit, interval, s[RunLength(side, unit, interval, level, s)..])[i].price)
  {
    var n := RunLength(side, unit, interval, Level(side, unit, interval, s[0]), s);
    var tail := Groups(side, unit, interval, s[n..]);
    RestIsBehind(side, unit, interval, s);
    assert Shows(tail, tail[i].price);
    GroupsShowLevels(side, unit, interval, s[n..], tail[i].price);
    var k :| 0 <= k < |s| - n && Level(side, unit, interval, s[n..][k]) == tail[i].price;
    assert s[n..][k] == s[n + k];
  }

  /** Each level's amount is that of all the side's orders at the level, not just of one run. */
  lemma {:induction false} GroupHasAll(side: OrderSide, unit: Pos, interval: int, s: seq<Order>, i: nat)
    requires Sorted(side, s) && i < |Groups(side, unit, interval, s)|
    ensures var g := Groups(side, unit, interval, s)[i]; g.amount == AmountAt(side, unit, interval, s, g.price)
    decreases |s|
  {
    var level := Level(side, unit, interval, s[0]);
    var n := RunLength(side, unit, interval, level, s);
    var at := Groups(side, unit, interval, s)[i].price;
    RestIsBehind(side, unit, interval, s);
    AmountAtSplit(side, unit, interval, s, n, at);
    AmountAtUniform(side, unit, interval, s[..n], level, at);
    if i == 0 {
      AmountAtAbsent(side, unit, interval, s[n..], level);
    } else {
      TailIsBehind(side, unit, interval, s, i - 1);
      GroupHasAll(side, unit, interval, s[n..], i - 1);
    }
  }

  function Amounts(g: seq<PriceInfo>): int
  {
    if g == [] then 0 else g[0].amount + Amounts(g[1..])
  }

  lemma {:induction false} RemainsSplit(s: seq<Order>, n: nat)
    requires n <= |s|
    ensures Remains(s) == Remains(s[..n]) + Remains(s[n..])
  {
    if n > 0 {
      RemainsSplit(s[1..], n - 1);
      assert s[..n][1..] == s[1..][..n - 1];
    } else {
      assert s[..n] == [] && s[n..] == s;
    }
  }

  /** Unlimited, the levels add up to what `status` reports. */
  lemma {:induction false} GroupsAddUp(side: OrderSide, unit: Pos, interval: int, s: seq<Order>)
    ensures Amounts(Groups(side, unit, interval, s)) == Remains(s)
    decreases |s|
  {
    if s != [] {
      var n := RunLength(side, unit, interval, Level(side, unit, interval, s[0]), s);
      GroupsAddUp(side, unit, interval, s[n..]);
      RemainsSplit(s, n);
      assert Groups(side, unit, interval, s)[1..] == Groups(side, unit, interval, s[n..]);
    }
  }

  // ---------------------------------------------------------------- levels are price bands

  /** The widest a level can be. */
  function Width(interval: int): nat
  {
    if interval < 0 then -interval else interval
  }

  /** Without an interval every price is a level; with one, its multiples are. */
  predicate OnGrid(interval: int, level: int)
  {
    interval != 0 ==> level % Width(interval) == 0
  }

  /** The order's price lies at the level, or within one interval of it: below it for asks and above it
      for bids, the other way round if the interval is negative. */
  predicate InBand(side: OrderSide, unit: Pos, interval: int, o: Order, level: int)
  {
    var price := o.price * unit;
    if interval == 0 then price == level
    else if (side == ASK) == (interval > 0) then level - Width(interval) < price <= level
    else level <= price < level + Width(interval)
  }

  lemma CloseMultiples(k: int, m: int, d: int)
    requires 0 < d && -d < k * d - m * d < d
    ensures k == m
  {
    if k < m {
      ScaleMonotone(k + 1, m, d);
    } else if m < k {
      ScaleMonotone(m + 1, k, d);
    }
  }

  /** Two multiples less than one step apart are the same. */
  lemma SameMultiple(x: int, y: int, d: int)
    requires 0 < d && x % d == 0 && y % d == 0 && -d < x - y < d
    ensures x == y
  {
    CloseMultiples(x / d, y / d, d);
  }

  lemma RoundedDown(x: int, d: int)
    requires 0 < d
    ensures x / d * d <= x < x / d * d + d && x / d * d % d == 0
  {
    CloseMultiples(x / d * d / d, x / d, d);
  }

  lemma RoundedUp(x: int, d: int)
    requires 0 < d
    ensures x <= -(-x / d) * d < x + d && -(-x / d) * d % d == 0
  {
    var k := -x / d;
    assert -k * d == -(k * d);
    CloseMultiples(-k * d / d, -k, d);
  }

  lemma NegatedFactor(k: int, d: int)
    ensures k * -d == -k * d
  {
  }

  lemma CeilIsMultiple(x: int, interval: int)
    requires interval != 0
    ensures var level, d := CeilDiv(x, interval) * interval, Width(interval);
            level % d == 0 && if interval > 0 then x <= level < x + d else level <= x < level + d
  {
    if interval > 0 {
      RoundedUp(x, interval);
    } else {
      NegatedFactor(-(x / -interval), -interval);
      RoundedDown(x, -interval);
    }
  }

  lemma FloorIsMultiple(x: int, interval: int)
    requires interval != 0
    ensures var level, d := FloorDiv(x, interval) * interval, Width(interval);
            level % d == 0 && if interval > 0 then level <= x < level + d else x <= level < x + d
  {
    if interval > 0 {
      RoundedDown(x, interval);
    } else {
      NegatedFactor(-x / -interval, -interval);
      RoundedUp(x, -interval);
    }
  }

  lemma LevelIsInBand(side: OrderSide, unit: Pos, interval: int, o: Order)
    ensures var level := Level(side, unit, interval, o); OnGrid(interval, level) && InBand(side, unit, interval, o, level)
  {
    if interval != 0 {
      CeilIsMultiple(o.price * unit, interval);
      FloorIsMultiple(o.price * unit, interval);
    }
  }

  /** An order is shown at a level exactly when the level is one, and the price is in its band. */
  lemma LevelIsBand(side: OrderSide, unit: Pos, interval: int, o: Order, level: int)
    ensures Level(side, unit, interval, o) == level <==> OnGrid(interval, level) && InBand(side, unit, interval, o, level)
  {
    LevelIsInBand(side, unit, interval, o);
    if interval != 0 && OnGrid(interval, level) && InBand(side, unit, interval, o, level) {
      SameMultiple(Level(side, unit, interval, o), level, Width(interval));
    }
  }

  /** The remains of all orders of the side in a level's band, wherever they are in it. */
  function AmountInBand(side: OrderSide, unit: Pos, interval: int, s: seq<Order>, level: int): int
  {
    if s == [] then 0
    else (if InBand(side, unit, interval, s[0], level) then s[0].remain else 0) + AmountInBand(side, unit, interval, s[1..], level)
  }

  lemma {:induction false} AmountAtIsInBand(side: OrderSide, unit: Pos, interval: int, s: seq<Order>, level: int)
    requires OnGrid(interval, level)
    ensures AmountAt(side, unit, interval, s, level) == AmountInBand(side, unit, interval, s, level)
  {
    if s != [] {
      LevelIsBand(side, unit, interval, s[0], level);
      AmountAtIsInBand(side, unit, interval, s[1..], level);
    }
  }

  ghost predicate HasOrderIn(side: OrderSide, unit: Pos, interval: int, s: seq<Order>, level: int)
  {
    exists k :: 0 <= k < |s| && InBand(side, unit, interval, s[k], level)
  }

  lemma HasLevelIsBand(side: OrderSide, unit: Pos, interval: int, s: seq<Order>, level: int)
    ensures HasLevel(side, unit, interval, s, level) <==> OnGrid(interval, level) && HasOrderIn(side, unit, interval, s, level)
  {
    if k :| 0 <= k < |s| && Level(side, unit, interval, s[k]) == level {
      LevelIsBand(side, unit, interval, s[k], level);
    }
    if k :| 0 <= k < |s| && InBand(side, unit, interval, s[k], level) {
      LevelIsBand(side, unit, interval, s[k], level);
    }
  }

  lemma ShownBidsAreBelow(unit: Pos, interval: nat, asks: seq<Order>, bids: seq<Order>, ask: int, bid: int)
    requires Apart(asks, bids)
    requires Shows(Groups(ASK, unit, interval, asks), ask) && Shows(Groups(BID, unit, interval, bids), bid)
    ensures bid < ask
  {
    GroupsShowLevels(ASK, unit, interval, asks, ask);
    GroupsShowLevels(BID, unit, interval, bids, bid);
    var k :| 0 <= k < |asks| && Level(ASK, unit, interval, asks[k]) == ask;
    var m :| 0 <= m < |bids| && Level(BID, unit, interval, bids[m]) == bid;
    LevelIsInBand(ASK, unit, interval, asks[k]);
    LevelIsInBand(BID, unit, interval, bids[m]);
    StrictScale(bids[m].price, asks[k].price, unit);
  }

  lemma StrictScale(x: int, y: int, k: Pos)
    requires x < y
    ensures x * k < y * k
  {
  }

  /** An order that is not shown is behind all `limit` levels that are. */
  ghost predicate ShownOrBehind(side: OrderSide, unit: Pos, interval: int, o: Order, shown: seq<PriceInfo>, limit: nat)
  {
    || (exists i :: 0 <= i < |shown| && InBand(side, unit, interval, o, shown[i].price))
    || (|shown| == limit && forall i | 0 <= i < |shown| :: Ahead(side, shown[i].price, o.price * unit))
  }

  lemma AheadOfOrder(side: OrderSide, unit: Pos, interval: int, o: Order, level: int)
    requires OnGrid(interval, level) && Ahead(side, level, Level(side, unit, interval, o))
    ensures Ahead(side, level, o.price * unit)
  {
    var at := Level(side, unit, interval, o);
    LevelIsInBand(side, unit, interval, o);
    if interval != 0 && at - level < Width(interval) && level - at < Width(interval) {
      SameMultiple(at, level, Width(interval));
    }
  }

  lemma BestAreShown(side: OrderSide, unit: Pos, interval: int, s: seq<Order>, limit: nat, k: nat)
    requires Sorted(side, s) && k < |s|
    ensures ShownOrBehind(side, unit, interval, s[k], Take(Groups(side, unit, interval, s), limit), limit)
  {
    var g := Groups(side, unit, interval, s);
    var shown, level := Take(g, limit), Level(side, unit, interval, s[k]);
    GroupsInOrder(side, unit, interval, s);
    GroupsShowLevels(side, unit, interval, s, level);
    LevelIsInBand(side, unit, interval, s[k]);
    var n :| 0 <= n < |g| && g[n].price == level;
    if n < |shown| {
      assert shown[n] == g[n];
    } else {
      forall i | 0 <= i < |shown|
        ensures Ahead(side, shown[i].price, s[k].price * unit)
      {
        assert shown[i] == g[i];
        GroupIsOnGrid(side, unit, interval, s, i);
        AheadOfOrder(side, unit, interval, s[k], g[i].price);
      }
    }
  }

  lemma GroupIsOnGrid(side: OrderSide, unit: Pos, interval: int, s: seq<Order>, i: nat)
    requires i < |Groups(side, unit, interval, s)|
    ensures OnGrid(interval, Groups(side, unit, interval, s)[i].price)
  {
    var g := Groups(side, unit, interval, s);
    assert Shows(g, g[i].price);
    GroupsShowLevels(side, unit, interval, s, g[i].price);
    HasLevelIsBand(side, unit, interval, s, g[i].price);
  }

  /** One side as it is shown: levels in order, best first, each with the amount of all orders in its
      band, and no order left out that is not behind them all. */
  ghost predicate ShownWell(side: OrderSide, unit: Pos, interval: int, s: seq<Order>, shown: seq<PriceInfo>, limit: nat)
  {
    && InOrder(side, shown) && |shown| <= limit
    && (forall i | 0 <= i < |shown| ::
          OnGrid(interval, shown[i].price) && shown[i].amount == AmountInBand(side, unit, interval, s, shown[i].price))
    && (forall k | 0 <= k < |s| :: ShownOrBehind(side, unit, interval, s[k], shown, limit))
  }

  lemma SideIsShownWell(side: OrderSide, unit: Pos, interval: int, s: seq<Order>, limit: nat)
    requires Sorted(side, s)
    ensures ShownWell(side, unit, interval, s, Take(Groups(side, unit, interval, s), limit), limit)
  {
    var g := Groups(side, unit, interval, s);
    GroupsInOrder(side, unit, interval, s);
    forall i | 0 <= i < |g|
      ensures OnGrid(interval, g[i].price) && g[i].amount == AmountInBand(side, unit, interval, s, g[i].price)
    {
      GroupHasAll(side, unit, interval, s, i);
      GroupIsOnGrid(side, unit, interval, s, i);
      AmountAtIsInBand(side, unit, interval, s, g[i].price);
    }
    forall k | 0 <= k < |s|
      ensures ShownOrBehind(side, unit, interval, s[k], Take(g, limit), limit)
    {
      BestAreShown(side, unit, interval, s, limit, k);
    }
  }

  /** What a sound book shows: each side's best `limit` levels, in order, each level's amount that of
      all the orders within its interval, and every bid shown below every ask shown. */
  lemma DepthIsFaithful(c: MarketConf, b: Book, maxId: nat, unit: Pos, limit: nat, interval: int)
    requires BookOk(c, b, maxId)
    ensures var d := DepthOf(b, unit, limit, interval);
            && ShownWell(ASK, unit, interval, b.asks, d.asks, limit) && ShownWell(BID, unit, interval, b.bids, d.bids, limit)
            && (0 <= interval ==> forall i, j | 0 <= i < |d.asks| && 0 <= j < |d.bids| :: d.bids[j].price < d.asks[i].price)
  {
    SideIsShownWell(ASK, unit, interval, b.asks, limit);
    SideIsShownWell(BID, unit, interval, b.bids, limit);
    if 0 <= interval {
      SidesShownApart(b, unit, limit, interval);
    }
  }

  lemma SidesShownApart(b: Book, unit: Pos, limit: nat, interval: nat)
    requires Apart(b.asks, b.bids)
    ensures var d := DepthOf(b, unit, limit, interval);
            forall i, j | 0 <= i < |d.asks| && 0 <= j < |d.bids| :: d.bids[j].price < d.asks[i].price
  {
    var d := DepthOf(b, unit, limit, interval);
    forall i, j | 0 <= i < |d.asks| && 0 <= j < |d.bids|
      ensures d.bids[j].price < d.asks[i].price
    {
      assert Groups(ASK, unit, interval, b.asks)[i] == d.asks[i] && Groups(BID, unit, interval, b.bids)[j] == d.bids[j];
      ShownBidsAreBelow(unit, interval, b.asks, b.bids, d.asks[i].price, d.bids[j].price);
    }
  }

  lemma SideIsComplete(side: OrderSide, s: seq<Order>, unit: Pos, limit: nat, interval: int, level: int)
    requires |s| <= limit
    ensures var shown := Take(Groups(side, unit, interval, s), limit);
            && Amounts(shown) == Remains(s)
            && (Shows(shown, level) <==> OnGrid(interval, level) && HasOrderIn(side, unit, interval, s, level))
  {
    GroupsAddUp(side, unit, interval, s);
    GroupsAreFew(side, unit, interval, s);
    GroupsShowLevels(side, unit, interval, s, level);
    HasLevelIsBand(side, unit, interval, s, level);
  }

  /** With no limit nothing is left out: a level is shown exactly when it is one and an order is in its
      band, and the amounts of each side add up to what `status` reports of it. */
  lemma DepthIsComplete(b: Book, unit: Pos, limit: nat, interval: int, level: int)
    requires StatusOf(b).askCount <= limit && StatusOf(b).bidCount <= limit
    ensures var d := DepthOf(b, unit, limit, interval);
            && Amounts(d.asks) == StatusOf(b).askAmount && Amounts(d.bids) == StatusOf(b).bidAmount
            && (Shows(d.asks, level) <==> OnGrid(interval, level) && HasOrderIn(ASK, unit, interval, b.asks, level))
            && (Shows(d.bids, level) <==> OnGrid(interval, level) && HasOrderIn(BID, unit, interval, b.bids, level))
  {
    SideIsComplete(ASK, b.asks, unit, limit, interval, level);
    SideIsComplete(BID, b.bids, unit, limit, interval, level);
  }

  lemma {:induction false} GroupsAreFew(side: OrderSide, unit: Pos, interval: int, s: seq<Order>)
    ensures |Groups(side, unit, interval, s)| <= |s|
    decreases |s|
  {
    if s != [] {
      GroupsAreFew(side, unit, interval, s[RunLength(side, unit, interval, Level(side, unit, interval, s[0]), s)..]);
    }
  }
}
