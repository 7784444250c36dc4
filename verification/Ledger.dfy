/** The ledger as a value: balances by user, type and asset, and the cache of requests already
    applied.  Module Balances holds the objects that keep them. */
module Ledger {
  import opened Types
  import Sums

  datatype BalanceType = AVAILABLE | FREEZE

  datatype BalanceKey = BalanceKey(user: Uuid, kind: BalanceType, asset: Asset)

  type Balances = map<BalanceKey, int>

  datatype BusinessType = Deposit | Trading | Transfer | Withdraw

  /** The business tag every trade uses. */
  const TRADE_BUSINESS: nat := 0

  datatype UpdateKey = UpdateKey(
    kind: BalanceType, businessType: BusinessType, user: Uuid, asset: Asset, business: nat, businessId: nat)

  datatype UpdateParams = UpdateParams(key: UpdateKey, change: int)

  datatype UpdateError = DuplicateRequest | BalanceNotEnough

  datatype Funds = Funds(balances: Balances, cache: set<UpdateKey>)

  function Get(b: Balances, k: BalanceKey): int
  {
    if k in b then b[k] else 0
  }

  function Add(b: Balances, k: BalanceKey, amount: int): Balances
  {
    b[k := Get(b, k) + amount]
  }

  function Sub(b: Balances, k: BalanceKey, amount: int): Balances
  {
    b[k := Get(b, k) - amount]
  }

  function Frozen(b: Balances, user: Uuid, asset: Asset, amount: int): Balances
  {
    Add(Sub(b, BalanceKey(user, AVAILABLE, asset), amount), BalanceKey(user, FREEZE, asset), amount)
  }

  function Unfrozen(b: Balances, user: Uuid, asset: Asset, amount: int): Balances
  {
    Sub(Add(b, BalanceKey(user, AVAILABLE, asset), amount), BalanceKey(user, FREEZE, asset), amount)
  }

  function Target(k: UpdateKey): BalanceKey
  {
    BalanceKey(k.user, k.kind, k.asset)
  }

  /** One change of one balance: refused when its key was used before, or when a debit is larger
      than the balance. */
  function UpdateUserBalance(f: Funds, p: UpdateParams): Result<Funds, UpdateError>
  {
    if p.key in f.cache then Err(DuplicateRequest)
    else if p.change >= 0 then Ok(Funds(Add(f.balances, Target(p.key), p.change), f.cache + {p.key}))
    else if Get(f.balances, Target(p.key)) < -p.change then Err(BalanceNotEnough)
    else Ok(Funds(Sub(f.balances, Target(p.key), -p.change), f.cache + {p.key}))
  }

  ghost predicate NoneNegative(b: Balances)
  {
    forall k | k in b :: 0 <= b[k]
  }

  ghost function AssetWeight(asset: Asset): (BalanceKey, int) -> int
  {
    (k: BalanceKey, v: int) => if k.asset == asset then v else 0
  }

  /** Everything all users hold of an asset, free or frozen. */
  ghost function Total(b: Balances, asset: Asset): int
  {
    Sums.Sum(b, AssetWeight(asset))
  }

  lemma TotalAfterSet(b: Balances, k: BalanceKey, v: int, asset: Asset)
    ensures Total(b[k := v], asset) == Total(b, asset) + if k.asset == asset then v - Get(b, k) else 0
  {
    Sums.SumUpdate(b, k, v, AssetWeight(asset));
  }

  /** Moving funds between a user's two balances of an asset neither makes nor loses any. */
  lemma FreezingConserves(b: Balances, user: Uuid, asset: Asset, amount: int, a: Asset)
    ensures Total(Frozen(b, user, asset, amount), a) == Total(b, a)
    ensures Total(Unfrozen(b, user, asset, amount), a) == Total(b, a)
    ensures forall k :: Get(Unfrozen(Frozen(b, user, asset, amount), user, asset, amount), k) == Get(b, k)
  {
    var free, frozen := BalanceKey(user, AVAILABLE, asset), BalanceKey(user, FREEZE, asset);
    TotalAfterSet(b, free, Get(b, free) - amount, a);
    TotalAfterSet(Sub(b, free, amount), frozen, Get(b, frozen) + amount, a);
    TotalAfterSet(b, free, Get(b, free) + amount, a);
    TotalAfterSet(Add(b, free, amount), frozen, Get(b, frozen) - amount, a);
  }

  /** An accepted update changes one balance by exactly `change`, keeps every balance non-negative
      and can never be applied again; it is refused exactly when it is a duplicate or unaffordable. */
  lemma UpdateIsExact(f: Funds, p: UpdateParams, asset: Asset)
    requires NoneNegative(f.balances)
    ensures UpdateUserBalance(f, p).Ok? <==> p.key !in f.cache && 0 <= Get(f.balances, Target(p.key)) + p.change
    ensures UpdateUserBalance(f, p).Ok? ==>
              var f' := UpdateUserBalance(f, p).value;
              && NoneNegative(f'.balances)
              && (forall k :: Get(f'.balances, k) == Get(f.balances, k) + if k == Target(p.key) then p.change else 0)
              && Total(f'.balances, asset) == Total(f.balances, asset) + (if p.key.asset == asset then p.change else 0)
              && UpdateUserBalance(f', p) == Err(DuplicateRequest)
  {
    var k := Target(p.key);
    TotalAfterSet(f.balances, k, Get(f.balances, k) + p.change, asset);
  }
}
