/** A trade's settlement: when its four balance updates go through, and exactly what they do. */
module Settlement {
  import opened Types
  import opened Orders
  import opened Ledger
  import opened Matching

  ghost predicate Unrelated(u: seq<UpdateParams>)
  {
    forall i, j | 0 <= i < j < |u| :: Target(u[i].key) != Target(u[j].key)
  }

  ghost predicate Affordable(f: Funds, p: UpdateParams)
  {
    p.key !in f.cache && 0 <= Get(f.balances, Target(p.key)) + p.change
  }

  function ChangeAt(u: seq<UpdateParams>, k: BalanceKey): int
    requires |u| == 4
  {
    (if k == Target(u[0].key) then u[0].change else 0) + (if k == Target(u[1].key) then u[1].change else 0)
    + (if k == Target(u[2].key) then u[2].change else 0) + (if k == Target(u[3].key) then u[3].change else 0)
  }

  function ChangeIn(u: seq<UpdateParams>, a: Asset): int
    requires |u| == 4
  {
    (if u[0].key.asset == a then u[0].change else 0) + (if u[1].key.asset == a then u[1].change else 0)
    + (if u[2].key.asset == a then u[2].change else 0) + (if u[3].key.asset == a then u[3].change else 0)
  }

  /** Four updates of different balances all succeed if and only if each is affordable alone. */
  lemma SettleIffAffordable(f: Funds, u: seq<UpdateParams>)
    requires |u| == 4 && Unrelated(u) && NoneNegative(f.balances)
    ensures Settle(f, u).Ok? <==> forall i | 0 <= i < 4 :: Affordable(f, u[i])
    ensures Settle(f, u).Ok? ==>
              && NoneNegative(Settle(f, u).value.balances)
              && Settle(f, u).value.cache == f.cache + {u[0].key, u[1].key, u[2].key, u[3].key}
              && forall k :: Get(Settle(f, u).value.balances, k) == Get(f.balances, k) + ChangeAt(u, k)
  {
    UpdateIsExact(f, u[0], 0);
    var r1 := UpdateUserBalance(f, u[0]);
    if r1.Ok? {
      UpdateIsExact(r1.value, u[1], 0);
      assert Affordable(r1.value, u[1]) <==> Affordable(f, u[1]);
      var r2 := UpdateUserBalance(r1.value, u[1]);
      if r2.Ok? {
        UpdateIsExact(r2.value, u[2], 0);
        assert Affordable(r2.value, u[2]) <==> Affordable(f, u[2]);
        var r3 := UpdateUserBalance(r2.value, u[2]);
        if r3.Ok? {
          UpdateIsExact(r3.value, u[3], 0);
          assert Affordable(r3.value, u[3]) <==> Affordable(f, u[3]);
        } else {
          assert !Affordable(f, u[2]);
        }
      } else {
        assert !Affordable(f, u[1]);
      }
    } else {
      assert !Affordable(f, u[0]);
    }
  }

  lemma SettleTotals(f: Funds, u: seq<UpdateParams>, a: Asset)
    requires |u| == 4 && NoneNegative(f.balances) && Settle(f, u).Ok?
    ensures Total(Settle(f, u).value.balances, a) == Total(f.balances, a) + ChangeIn(u, a)
  {
    UpdateIsExact(f, u[0], a);
    var f1 := UpdateUserBalance(f, u[0]).value;
    UpdateIsExact(f1, u[1], a);
    var f2 := UpdateUserBalance(f1, u[1]).value;
    UpdateIsExact(f2, u[2], a);
    UpdateIsExact(UpdateUserBalance(f2, u[2]).value, u[3], a);
  }

  /** A deal between two different users is four updates of four different balances. */
  lemma DealUpdatesUnrelated(c: MarketConf, taker: Order, maker: Order, d: Deal, tradeId: nat)
    requires taker.user != maker.user && c.base != c.quote
    ensures Unrelated(DealUpdates(c, taker, maker, d, tradeId))
  {
  }

  /** A deal of a user with themself never settles: two of its updates carry the same key. */
  lemma SelfDealNeverSettles(c: MarketConf, f: Funds, taker: Order, maker: Order, d: Deal, tradeId: nat)
    requires taker.user == maker.user
    ensures Settle(f, DealUpdates(c, taker, maker, d, tradeId)).Err?
  {
    var u := DealUpdates(c, taker, maker, d, tradeId);
    if taker.IsAsk() {
      assert u[0].key == u[1].key;
    } else {
      assert u[2].key == u[3].key;
    }
    assert forall g, p :: UpdateUserBalance(g, p).Ok? ==> g.cache + {p.key} == UpdateUserBalance(g, p).value.cache;
  }

  lemma FeeBounds(x: int, rate: Fixed)
    requires 0 <= x && rate <= FEE_ONE
    ensures Charged(Fee(x, rate)) <= x
    ensures 0 <= Charged(Fee(x, rate))
  {
    if rate >= 0 {
      assert x * rate <= x * FEE_ONE;
    } else {
      assert x * rate <= 0;
    }
  }
}
