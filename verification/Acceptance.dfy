/** Which orders are accepted, in the request's own units, and why one is refused. */
module Acceptance {
  import opened Types
  import opened Orders
  import opened Ledger
  import opened Matching
  import opened MatchLoop
  import opened BookInvariant
  import opened VenueInvariant
  import opened Precision
  import opened Exchange
  import opened ExchangeInvariant

  /** What one unit of the base ledger is worth, and one of the quote ledger (in units of 10^-56, since
      it is compared with an amount times a price). */
  datatype Worth = Worth(base: Pos, quote: Pos)

  predicate IsWorth(c: MarketConf, w: Worth)
  {
    c.amountStep == c.lot * w.base && c.priceStep * c.amountStep == c.tick * w.quote
  }

  /** What is wrong with the request when this is the reason given. */
  predicate Wrong(c: MarketConf, w: Worth, v: Venue, input: OrderInput, user: Uuid, reason: PutError)
  {
    match reason
    case MarketOrdersDisabled => input.kind == MARKET && c.disableMarketOrder
    case InvalidAmount => input.amount < c.minAmount
    case FeeNotSupported => c.feePrec == 0 && !(input.takerFee == input.makerFee == 0)
    case InvalidAmountPrecision => input.amount % c.amountStep != 0
    case InvalidPricePrecision => input.price % c.priceStep != 0
    case MarketOrderWithPrice => input.kind == MARKET && input.price != 0
    case MarketOrderPostOnly => input.kind == MARKET && input.postOnly
    case NoCounterOrders => input.kind == MARKET && if input.side == ASK then v.book.bids == [] else v.book.asks == []
    case InvalidPrice => input.kind == LIMIT && input.price == 0
    case NotEnough =>
      || (input.side == ASK && Get(v.funds.balances, BalanceKey(user, AVAILABLE, c.base)) * w.base < input.amount)
      || (input.side == BID && input.kind == LIMIT
          && Get(v.funds.balances, BalanceKey(user, AVAILABLE, c.quote)) * w.quote < input.amount * input.price)
  }

  lemma ScaledLess(x: int, y: int, k: Pos)
    ensures x < y <==> x * k < y * k
  {
    if x < y {
      ProductMonotone(x + 1, y, k);
    } else {
      ProductMonotone(y, x, k);
    }
  }

  /** Lots and ledger units compare as the request's amount and the balance do. */
  lemma BaseIsScaled(c: MarketConf, w: Worth, amount: Fixed, balance: int)
    requires IsWorth(c, w) && amount % c.amountStep == 0
    ensures balance < amount / c.amountStep * c.lot <==> balance * w.base < amount
  {
    MultipleOfStep(amount, c.amountStep);
    ProductOfThree(amount / c.amountStep, c.lot, w.base);
    ScaledLess(balance, amount / c.amountStep * c.lot, w.base);
  }

  lemma QuoteIsScaled(c: MarketConf, w: Worth, amount: Fixed, price: Fixed, balance: int)
    requires IsWorth(c, w) && amount % c.amountStep == 0 && price % c.priceStep == 0
    ensures balance < amount / c.amountStep * (price / c.priceStep * c.tick) <==> balance * w.quote < amount * price
  {
    var lots, ticks := amount / c.amountStep, price / c.priceStep;
    MultipleOfStep(amount, c.amountStep);
    MultipleOfStep(price, c.priceStep);
    RegroupProduct(ticks, c.priceStep, lots, c.amountStep, c.tick, w.quote);
    Commuted(lots, ticks, c.tick, w.quote);
    ScaledLess(balance, lots * (ticks * c.tick), w.quote);
  }

  lemma Commuted(lots: int, ticks: int, tick: int, unit: int)
    ensures lots * (ticks * tick) * unit == ticks * tick * lots * unit
  {
  }

  lemma PricesCompare(c: MarketConf, w: Worth, v: Venue, input: OrderInput, user: Uuid)
    requires IsWorth(c, w) && input.amount % c.amountStep == 0 && input.price % c.priceStep == 0
    ensures var o := NewOrder(c, 0, input, user);
            && (Get(v.funds.balances, BalanceKey(user, AVAILABLE, c.base)) < o.amount * c.lot
                <==> Get(v.funds.balances, BalanceKey(user, AVAILABLE, c.base)) * w.base < input.amount)
            && (Get(v.funds.balances, BalanceKey(user, AVAILABLE, c.quote)) < o.amount * o.price
                <==> Get(v.funds.balances, BalanceKey(user, AVAILABLE, c.quote)) * w.quote < input.amount * input.price)
  {
    BaseIsScaled(c, w, input.amount, Get(v.funds.balances, BalanceKey(user, AVAILABLE, c.base)));
    QuoteIsScaled(c, w, input.amount, input.price, Get(v.funds.balances, BalanceKey(user, AVAILABLE, c.quote)));
  }

  /** The checks refuse exactly the requests with something wrong, and for something that is. */
  lemma RefusedForReason(c: MarketConf, w: Worth, v: Venue, input: OrderInput, user: Uuid)
    requires IsWorth(c, w)
    ensures Refusal(c, v, input, user).None? <==> forall reason :: !Wrong(c, w, v, input, user, reason)
    ensures Refusal(c, v, input, user).Some? ==> Wrong(c, w, v, input, user, Refusal(c, v, input, user).value)
  {
    if input.amount % c.amountStep == 0 && input.price % c.priceStep == 0 {
      PricesCompare(c, w, v, input, user);
    }
    if Refusal(c, v, input, user).None? {
      forall reason
        ensures !Wrong(c, w, v, input, user, reason)
      {
      }
    } else {
      assert Wrong(c, w, v, input, user, Refusal(c, v, input, user).value);
    }
  }

  /** A sound market accepts exactly the orders with nothing wrong, and otherwise says what is. */
  lemma OrderIsAcceptedIff(c: MarketConf, w: Worth, v: Venue, input: OrderInput, user: Uuid)
    requires VenueOk(c, v) && Sensible(input) && IsWorth(c, w)
    ensures PutOrder(c, v, input, user).Accepted? <==> forall reason :: !Wrong(c, w, v, input, user, reason)
    ensures PutOrder(c, v, input, user).Refused? ==> Wrong(c, w, v, input, user, PutOrder(c, v, input, user).error)
  {
    RefusedForReason(c, w, v, input, user);
    PutOrderIsSafe(c, v, input, user);
  }

  /** A sound exchange accepts an order exactly when its market exists, its user's open orders are not
      just at the limit, and nothing is wrong with it; a refusal changes nothing. */
  lemma PutOneIsAcceptedIff(cfg: Config, w: Worth, e: Exchange, user: Uuid, put: PutRequest)
    requires ExchangeOk(cfg, e) && Sensible(put.input)
    requires Listed(cfg, e, put.market) ==> IsWorth(cfg.confs[put.market], w)
    ensures var r := Exec(cfg, e, user, OrderPut(put));
            && (r.response == Accept <==>
                  && Listed(cfg, e, put.market) && OpenOrders(e.books, user) != cfg.userOrderLimit
                  && forall reason :: !Wrong(cfg.confs[put.market], w, VenueOf(e, put.market), put.input, user, reason))
            && (r.response != Accept ==> r == Effect(e, Reject, []))
  {
    if Listed(cfg, e, put.market) {
      VenueOfIsOk(cfg, e, put.market);
      OrderIsAcceptedIff(cfg.confs[put.market], w, VenueOf(e, put.market), put.input, user);
      PutOrderIsSafe(cfg.confs[put.market], VenueOf(e, put.market), put.input, user);
    }
  }

  /** Every market that can be set up has its units' worth. */
  lemma WorthOfUnits(m: MarketSettings, prec: map<Asset, nat>) returns (w: Worth)
    requires forall a | a in prec :: prec[a] <= SCALE
    requires NewMarket(m, prec).Ok?
    ensures IsWorth(NewMarket(m, prec).value, w)
    ensures w == Worth(Pow10(SCALE - prec[m.base]), Pow10(2 * SCALE - prec[m.quote]))
  {
    w := Worth(Pow10(SCALE - prec[m.base]), Pow10(2 * SCALE - prec[m.quote]));
    StepRatios(Precisions(m.amountPrec, m.pricePrec, prec[m.base], prec[m.quote]));
  }
}
