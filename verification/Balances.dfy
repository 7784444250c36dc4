/** The objects that keep the ledger, the duplicate cache, the counters and the persistor's record. */
module Balances {
  import opened Types
  import opened Ledger
  import opened Iteration
  import Sums

  datatype BalanceStatus = BalanceStatus(total: int, availableCount: nat, available: int, frozenCount: nat, frozen: int)

  /** Adding one more balance to a status; zero balances are skipped. */
  function Counted(s: BalanceStatus, kind: BalanceType, amount: int): BalanceStatus
  {
    if amount == 0 then s
    else if kind == AVAILABLE then
      s.(total := s.total + amount, availableCount := s.availableCount + 1, available := s.available + amount)
    else
      s.(total := s.total + amount, frozenCount := s.frozenCount + 1, frozen := s.frozen + amount)
  }

  ghost function KindWeight(asset: Asset, kind: BalanceType): (BalanceKey, int) -> int
  {
    (k: BalanceKey, v: int) => if k.asset == asset && k.kind == kind then v else 0
  }

  ghost function NonZeroWeight(asset: Asset, kind: BalanceType): (BalanceKey, int) -> int
  {
    (k: BalanceKey, v: int) => if k.asset == asset && k.kind == kind && v != 0 then 1 else 0
  }

  /** What `status` reports about an asset, as sums over the whole ledger. */
  ghost predicate IsStatus(s: BalanceStatus, b: Balances, asset: Asset)
  {
    && s.total == Total(b, asset)
    && s.available == Sums.Sum(b, KindWeight(asset, AVAILABLE)) && s.availableCount == Sums.Sum(b, NonZeroWeight(asset, AVAILABLE))
    && s.frozen == Sums.Sum(b, KindWeight(asset, FREEZE)) && s.frozenCount == Sums.Sum(b, NonZeroWeight(asset, FREEZE))
  }

  lemma StatusWithOneMore(s: BalanceStatus, b: Balances, asset: Asset, k: BalanceKey, v: int)
    requires k !in b && IsStatus(s, b, asset)
    ensures IsStatus(if k.asset == asset then Counted(s, k.kind, v) else s, b[k := v], asset)
  {
    Sums.SumUpdate(b, k, v, AssetWeight(asset));
    Sums.SumUpdate(b, k, v, KindWeight(asset, AVAILABLE));
    Sums.SumUpdate(b, k, v, KindWeight(asset, FREEZE));
    Sums.SumUpdate(b, k, v, NonZeroWeight(asset, AVAILABLE));
    Sums.SumUpdate(b, k, v, NonZeroWeight(asset, FREEZE));
  }

  class BalanceManager {
    var balances: Ledger.Balances

    constructor ()
      ensures balances == map[]
    {
      balances := map[];
    }

    function GetByKey(key: BalanceKey): int
      reads this
    {
      if key in balances then balances[key] else 0
    }

    method SetByKey(key: BalanceKey, amount: int)
      modifies this
      ensures balances == old(balances)[key := amount]
    {
      balances := balances[key := amount];
    }

    method Add(key: BalanceKey, amount: int) returns (r: int)
      modifies this
      ensures balances == Ledger.Add(old(balances), key, amount) && r == Get(balances, key)
    {
      r := GetByKey(key) + amount;
      SetByKey(key, r);
    }

    method Sub(key: BalanceKey, amount: int) returns (r: int)
      modifies this
      ensures balances == Ledger.Sub(old(balances), key, amount) && r == Get(balances, key)
    {
      r := GetByKey(key) - amount;
      SetByKey(key, r);
    }

    method Frozen(user: Uuid, asset: Asset, amount: int)
      modifies this
      ensures balances == Ledger.Frozen(old(balances), user, asset, amount)
    {
      var _ := Sub(BalanceKey(user, AVAILABLE, asset), amount);
      var _ := Add(BalanceKey(user, FREEZE, asset), amount);
    }

    method Unfrozen(user: Uuid, asset: Asset, amount: int)
      modifies this
      ensures balances == Ledger.Unfrozen(old(balances), user, asset, amount)
    {
      var _ := Add(BalanceKey(user, AVAILABLE, asset), amount);
      var _ := Sub(BalanceKey(user, FREEZE, asset), amount);
    }

    /** Sums up an asset over all balances. */
    method Status(asset: Asset) returns (s: BalanceStatus)
      ensures IsStatus(s, balances, asset)
    {
      s := BalanceStatus(0, 0, 0, 0, 0);
      var todo := balances.Keys;
      ghost var seen: Ledger.Balances := map[];
      while todo != {}
        invariant todo <= balances.Keys && seen == balances - todo
        invariant IsStatus(s, seen, asset)
        decreases |todo|
      {
        var k := AnyOf(todo);
        StatusWithOneMore(s, seen, asset, k, balances[k]);
        if k.asset == asset {
          s := Counted(s, k.kind, balances[k]);
        }
        seen := seen[k := balances[k]];
        todo := todo - {k};
      }
      assert seen == balances;
    }
  }

  /** What a persistor was told.  The dummy one, used on replay, keeps nothing. */
  class Persistor {
    const isReal: bool
    var events: seq<Event>

    constructor (isReal: bool)
      ensures this.isReal == isReal && events == []
    {
      this.isReal := isReal;
      events := [];
    }

    /** What the record becomes when told `e`. */
    function Told(e: seq<Event>): seq<Event>
      reads this
    {
      if isReal then events + e else events
    }

    method Put(e: Event)
      modifies this
      ensures events == old(Told([e]))
    {
      if isReal {
        events := events + [e];
      }
    }
  }

  class BalanceUpdateController {
    var cache: set<UpdateKey>

    constructor ()
      ensures cache == {}
    {
      cache := {};
    }

    /** Applies one change to one balance, unless it is a duplicate or a debit the balance cannot
        cover, in which case nothing changes.  Deposits and withdrawals are told to the persistor. */
    method UpdateUserBalance(bm: BalanceManager, persistor: Persistor, p: UpdateParams) returns (r: Result<(), UpdateError>)
      modifies this, bm, persistor
      ensures match Ledger.UpdateUserBalance(Funds(old(bm.balances), old(cache)), p)
              case Err(e) => r == Err(e) && bm.balances == old(bm.balances) && cache == old(cache) && persistor.events == old(persistor.events)
              case Ok(f) =>
                && r.Ok? && bm.balances == f.balances && cache == f.cache
                && persistor.events == old(persistor.Told(
                     if p.key.businessType in {Deposit, Withdraw} && p.change != 0 then [FundsEvent(p.key.user, p.key.asset, p.change)] else []))
    {
      if p.key in cache {
        return Err(DuplicateRequest);
      }
      var target := Target(p.key);
      var oldBalance := bm.GetByKey(target);
      var absChange := if p.change >= 0 then p.change else -p.change;
      if p.change >= 0 {
        var _ := bm.Add(target, absChange);
      } else {
        if oldBalance < absChange {
          return Err(BalanceNotEnough);
        }
        var _ := bm.Sub(target, absChange);
      }
      cache := cache + {p.key};
      if p.change != 0 && p.key.businessType in {Deposit, Withdraw} {
        persistor.Put(FundsEvent(p.key.user, p.key.asset, p.change));
      }
      return Ok(());
    }
  }

  class Sequencer {
    var orderId: nat
    var tradeId: nat
    var operationLogId: nat

    constructor ()
      ensures orderId == tradeId == operationLogId == 0
    {
      orderId, tradeId, operationLogId := 0, 0, 0;
    }

    method NextOrderId() returns (id: nat)
      modifies `orderId
      ensures id == orderId == old(orderId) + 1
    {
      orderId := orderId + 1;
      id := orderId;
    }

    method NextTradeId() returns (id: nat)
      modifies `tradeId
      ensures id == tradeId == old(tradeId) + 1
    {
      tradeId := tradeId + 1;
      id := tradeId;
    }

    method NextOperationLogId() returns (id: nat)
      modifies `operationLogId
      ensures id == operationLogId == old(operationLogId) + 1
    {
      operationLogId := operationLogId + 1;
      id := operationLogId;
    }
  }
}
