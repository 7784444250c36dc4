/** Deposits and withdrawals, in units of value: what is credited for a requested change, to whom, and
    when the request is accepted. */
module Deposits {
  import opened Types
  import opened Ledger
  import opened Precision
  import opened Exchange
  import opened ExchangeInvariant

  /** `c` ledger units are the multiple of the shown step nearest to `delta`, each ledger unit being
      worth `saveStep`. */
  predicate RoundsTo(info: AssetInfo, saveStep: Pos, delta: Fixed, c: int)
  {
    && c % info.showUnit == 0
    && 2 * (c * saveStep - delta) <= info.showStep && 2 * (delta - c * saveStep) <= info.showStep
    && (2 * (c * saveStep - delta) == info.showStep || 2 * (delta - c * saveStep) == info.showStep ==> c / info.showUnit % 2 == 0)
  }

  lemma ChangeRounds(info: AssetInfo, saveStep: Pos, delta: Fixed)
    requires info.showStep == info.showUnit * saveStep
    ensures RoundsTo(info, saveStep, delta, RoundedChange(info, delta))
  {
    var q := RoundHalfEven(delta, info.showStep);
    RoundingIsNearest(delta, info.showStep, q);
    MultipleDivides(q, info.showUnit);
    ProductOfThree(q, info.showUnit, saveStep);
  }

  /** There is only one such number. */
  lemma RoundingIsUnique(info: AssetInfo, saveStep: Pos, delta: Fixed, c: int, d: int)
    requires info.showStep == info.showUnit * saveStep
    requires RoundsTo(info, saveStep, delta, c) && RoundsTo(info, saveStep, delta, d)
    ensures c == d
  {
    var p, q := c / info.showUnit, d / info.showUnit;
    MultipleOfStep(c, info.showUnit);
    MultipleOfStep(d, info.showUnit);
    ProductOfThree(p, info.showUnit, saveStep);
    ProductOfThree(q, info.showUnit, saveStep);
    NearestIsUnique(delta, info.showStep, p, q);
  }

  /** What the duplicate cache knows the request by. */
  function KeyOfChange(user: Uuid, asset: Asset, c: int, business: nat, id: nat): UpdateKey
  {
    UpdateKey(AVAILABLE, if c >= 0 then Deposit else Withdraw, user, asset, business, id)
  }

  /** The user's free balance of the asset is `c` more, the request is remembered, the persistor is told
      of `c` unless it is nothing, and nothing else has changed. */
  ghost predicate Credited(e: Exchange, r: Effect, user: Uuid, asset: Asset, c: int, business: nat, id: nat)
  {
    && r.exchange.books == e.books && r.exchange.counters == e.counters
    && r.exchange.funds.cache == e.funds.cache + {KeyOfChange(user, asset, c, business, id)}
    && (forall k :: Get(r.exchange.funds.balances, k)
                 == Get(e.funds.balances, k) + if k == BalanceKey(user, AVAILABLE, asset) then c else 0)
    && r.events == if c == 0 then [] else [FundsEvent(user, asset, c)]
  }

  /** A deposit or withdrawal of `delta` credits the requesting user with the `c` ledger units nearest
      to it in value, and is accepted exactly when the asset is known, its key is not remembered and
      the balance covers it. */
  lemma BalanceUpdateCredits(cfg: Config, e: Exchange, user: Uuid, asset: Asset, delta: Fixed, business: nat, id: nat, saveStep: Pos)
    returns (c: int)
    requires ExchangeOk(cfg, e)
    requires asset in cfg.assets ==> cfg.assets[asset].showStep == cfg.assets[asset].showUnit * saveStep
    ensures asset in cfg.assets ==> RoundsTo(cfg.assets[asset], saveStep, delta, c)
    ensures var r := Exec(cfg, e, user, BalanceUpdate(asset, delta, business, id));
            && (r.response == Accept <==>
                  && asset in cfg.assets && KeyOfChange(user, asset, c, business, id) !in e.funds.cache
                  && 0 <= Get(e.funds.balances, BalanceKey(user, AVAILABLE, asset)) + c)
            && (r.response == Accept ==> Credited(e, r, user, asset, c, business, id))
            && (r.response != Accept ==> r == Effect(e, Reject, []))
  {
    c := 0;
    if asset in cfg.assets {
      c := RoundedChange(cfg.assets[asset], delta);
      ChangeRounds(cfg.assets[asset], saveStep, delta);
      UpdateIsExact(e.funds, ChangeParams(user, asset, c, business, id), asset);
    }
  }
}
