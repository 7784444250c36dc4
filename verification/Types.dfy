/** The values the exchange works on.  Uuids, asset ids and market names are only ever compared
    for equality by the engine, so each is a natural number here.

    Scaled integers.  A decimal that enters the engine from outside (`Fixed`) counts multiples of
    10^-28, the finest scale of a `Decimal`.  Inside the engine an order amount counts
    lots (10^-amount_prec), a balance counts ledger units of its asset (10^-prec_save), and a price
    is the number of quote ledger units paid for one lot.  Module Precision proves that these
    conversions lose nothing. */
module Types {
  type Uuid = nat
  type Asset = nat
  type MarketName = nat
  type Fixed = int
  type Pos = x: int | 0 < x witness 1

  datatype Option<+T> = None | Some(value: T)

  datatype Result<+T, +E> = Ok(value: T) | Err(error: E) {
    predicate IsFailure() { Err? }
    function PropagateFailure<U>(): Result<U, E>
      requires Err?
    {
      Err(error)
    }
    function Extract(): T
      requires Ok?
    {
      value
    }
  }

  datatype OrderSide = ASK | BID
  datatype OrderType = LIMIT | MARKET
  datatype OrderEventType = PUT | UPDATE | FINISH

  /** The const part of an order first, then the part every trade changes. */
  datatype Order = Order(
    id: nat, market: MarketName, kind: OrderType, side: OrderSide, user: Uuid, postOnly: bool,
    price: int, amount: int, makerFee: Fixed, takerFee: Fixed,
    remain: int, frozen: int, finishedBase: int, finishedQuote: int, finishedFee: int)
  {
    predicate IsAsk() { side == ASK }
  }

  datatype OrderInput = OrderInput(
    side: OrderSide, kind: OrderType, amount: Fixed, price: Fixed, quoteLimit: Fixed,
    takerFee: Fixed, makerFee: Fixed, postOnly: bool)

  /** A trade; each order snapshot is present only when this is that order's first trade. */
  datatype Trade = Trade(
    id: nat, market: MarketName, price: int, amount: int, quoteAmount: int,
    askUser: Uuid, askOrderId: nat, askFee: int,
    bidUser: Uuid, bidOrderId: nat, bidFee: int,
    takerIsAsk: bool, askOrder: Option<Order>, bidOrder: Option<Order>)

  /** What a persistor is told, in order. */
  datatype Event =
    | OrderEvent(order: Order, step: OrderEventType)
    | TradeEvent(trade: Trade, base: Asset, quote: Asset)
    | FundsEvent(user: Uuid, asset: Asset, change: int)

  /** Appending is associative. */
  lemma Regroup<T>(a: seq<T>, b: seq<T>, c: seq<T>)
    ensures (a + b) + c == a + (b + c)
  {
  }

  /** Cutting within the first of two sequences. */
  lemma CutFirst<T>(a: seq<T>, b: seq<T>, n: nat)
    requires n <= |a|
    ensures (a + b)[..n] == a[..n] && (a + b)[n..] == a[n..] + b
  {
  }

  function Min(a: int, b: int): int { if a <= b then a else b }

  function Max(a: int, b: int): int { if a <= b then b else a }
}

/** Iterating over a hash map's keys, in whatever order they come. */
module Iteration {
  method AnyOf<K(==)>(keys: set<K>) returns (k: K)
    requires keys != {}
    ensures k in keys
  {
    k :| k in keys;
  }
}
