/** What one order does to one market, as functions on values: the checks of `put_order`, the
    matching loop of `execute_order`, resting, finishing and cancelling.  Class Market refines these
    step by step; the properties are proved about them. */
module Matching {
  import opened Types
  import opened Orders
  import opened Ledger

  /** A market's fixed settings.  `lot` is the number of base ledger units in one lot and `tick` the
      number of quote ledger units in (one price step) * (one lot); the three steps are the
      multiples of 10^-28 that amounts, prices and quote limits are counted in. */
  datatype MarketConf = MarketConf(
    name: MarketName, base: Asset, quote: Asset, feePrec: nat, minAmount: Fixed,
    lot: Pos, tick: Pos, amountStep: Pos, priceStep: Pos, quoteStep: Pos,
    disableSelfTrade: bool, disableMarketOrder: bool)

  /** One, as a fee rate. */
  const FEE_ONE: Pos := 10_000_000_000_000_000_000_000_000_000

  datatype Book = Book(asks: seq<Order>, bids: seq<Order>, price: int, tradeCount: nat) {
    function Side(side: OrderSide): seq<Order>
    {
      if side == ASK then asks else bids
    }
    function WithSide(side: OrderSide, s: seq<Order>): Book
    {
      if side == ASK then this.(asks := s) else this.(bids := s)
    }
  }

  const EMPTY_BOOK: Book := Book([], [], 0, 0)

  function Opposite(side: OrderSide): OrderSide
  {
    if side == ASK then BID else ASK
  }

  /** The asset an order of this side pays with. */
  function PayAsset(c: MarketConf, side: OrderSide): Asset
  {
    if side == ASK then c.base else c.quote
  }

  /** What a resting order must have set aside: the base it sells, or the quote it pays. */
  function Backing(c: MarketConf, o: Order): int
  {
    if o.IsAsk() then o.remain * c.lot else o.remain * o.price
  }

  /** A fee, truncated toward zero to the ledger unit. */
  function Fee(x: int, rate: Fixed): int
  {
    if x * rate >= 0 then x * rate / FEE_ONE else -(-(x * rate) / FEE_ONE)
  }

  /** A negative fee is recorded but not paid out. */
  function Charged(fee: int): int
  {
    if fee >= 0 then fee else 0
  }

  // ---------------------------------------------------------------- one trade

  datatype Deal = Deal(amount: int, quote: int, askFee: int, bidFee: int)

  function MakeDeal(c: MarketConf, taker: Order, maker: Order, amount: int): Deal
  {
    var ask, bid := if taker.IsAsk() then taker.takerFee else maker.makerFee,
                    if taker.IsAsk() then maker.makerFee else taker.takerFee;
    var quote := maker.price * amount;
    Deal(amount, quote, Fee(quote, ask), Fee(amount * c.lot, bid))
  }

  function AfterDeal(o: Order, d: Deal): Order
  {
    o.(remain := o.remain - d.amount,
       finishedBase := o.finishedBase + d.amount,
       finishedQuote := o.finishedQuote + d.quote,
       finishedFee := o.finishedFee + if o.IsAsk() then d.askFee else d.bidFee)
  }

  function MakerAfterDeal(c: MarketConf, maker: Order, d: Deal): Order
  {
    AfterDeal(maker, d).(frozen := maker.frozen - if maker.IsAsk() then d.amount * c.lot else d.quote)
  }

  function TradeUpdate(kind: BalanceType, user: Uuid, asset: Asset, tradeId: nat, change: int): UpdateParams
  {
    UpdateParams(UpdateKey(kind, Trading, user, asset, TRADE_BUSINESS, tradeId), change)
  }

  /** The bid's base, the ask's base, the ask's quote, the bid's quote. */
  function DealUpdates(c: MarketConf, taker: Order, maker: Order, d: Deal, tradeId: nat): (r: seq<UpdateParams>)
    ensures |r| == 4
  {
    var ask, bid := if taker.IsAsk() then taker else maker, if taker.IsAsk() then maker else taker;
    [ TradeUpdate(AVAILABLE, bid.user, c.base, tradeId, d.amount * c.lot - Charged(d.bidFee)),
      TradeUpdate(if taker.IsAsk() then AVAILABLE else FREEZE, ask.user, c.base, tradeId, -(d.amount * c.lot)),
      TradeUpdate(AVAILABLE, ask.user, c.quote, tradeId, d.quote - Charged(d.askFee)),
      TradeUpdate(if taker.IsAsk() then FREEZE else AVAILABLE, bid.user, c.quote, tradeId, -d.quote) ]
  }

  /** Settlement: the four updates, one after the other. */
  function Settle(f: Funds, u: seq<UpdateParams>): Result<Funds, UpdateError>
    requires |u| == 4
  {
    var f1 :- UpdateUserBalance(f, u[0]);
    var f2 :- UpdateUserBalance(f1, u[1]);
    var f3 :- UpdateUserBalance(f2, u[2]);
    UpdateUserBalance(f3, u[3])
  }

  function MakeTrade(c: MarketConf, id: nat, taker: Order, maker: Order, d: Deal): Trade
  {
    var ask, bid := if taker.IsAsk() then taker else maker, if taker.IsAsk() then maker else taker;
    Trade(id, c.name, maker.price, d.amount, d.quote, ask.user, ask.id, d.askFee, bid.user, bid.id, d.bidFee,
          taker.IsAsk(),
          if ask.finishedBase == 0 then Some(ask) else None,
          if bid.finishedBase == 0 then Some(bid) else None)
  }

  // ---------------------------------------------------------------- the loop

  /** The loop's state: `done` are the makers already traded with, `rest` those not reached. */
  datatype Matched = Matched(
    taker: Order, done: seq<Order>, rest: seq<Order>, funds: Funds, tradeId: nat,
    quoteSum: int, price: int, tradeCount: nat, events: seq<Event>)

  predicate Crosses(taker: Order, maker: Order)
  {
    if taker.IsAsk() then taker.price <= maker.price else maker.price <= taker.price
  }

  /** How much the taker and this maker trade; a market bid must stay within its quote limit.  Every
      resting price is positive (BookOk), so the division is never by zero. */
  function DealAmount(taker: Order, maker: Order, quoteSum: int, limit: int): int
  {
    var a := Min(taker.remain, maker.remain);
    if !taker.IsAsk() && taker.kind == MARKET && quoteSum + maker.price * a > limit then
      if maker.price == 0 then 0 else (limit - quoteSum) / maker.price
    else a
  }

  /** What the persistor is told of one trade: the trade, then the maker unless it is finished. */
  function DealEvents(c: MarketConf, id: nat, taker: Order, maker: Order, d: Deal): seq<Event>
  {
    var maker' := MakerAfterDeal(c, maker, d);
    [TradeEvent(MakeTrade(c, id, taker, maker, d), c.base, c.quote)]
    + if maker'.remain == 0 then [] else [OrderEvent(maker', UPDATE)]
  }

  /** The loop's state after a settled deal with the first maker of `rest`. */
  function Advance(c: MarketConf, s: Matched, d: Deal, funds: Funds): Matched
    requires s.rest != []
  {
    var maker := s.rest[0];
    Matched(AfterDeal(s.taker, d), s.done + [MakerAfterDeal(c, maker, d)], s.rest[1..], funds, s.tradeId + 1,
            s.quoteSum + d.quote, maker.price, s.tradeCount + 1,
            s.events + DealEvents(c, s.tradeId + 1, s.taker, maker, d))
  }

  /** What the loop does when it meets a maker. */
  datatype Choice = StopHere | CancelHere | TradeHere(amount: int)

  function Choose(c: MarketConf, taker: Order, maker: Order, quoteSum: int, limit: int): Choice
  {
    if taker.remain == 0 then StopHere
    else if taker.kind == LIMIT && !Crosses(taker, maker) then StopHere
    else if taker.postOnly then CancelHere
    else if taker.user == maker.user && c.disableSelfTrade then CancelHere
    else
      var amount := DealAmount(taker, maker, quoteSum, limit);
      if amount == 0 then StopHere else TradeHere(amount)
  }

  datatype Verdict = Stop | Cancel | Panic | Go(next: Matched)

  /** One turn of the loop.  `Panic` stands for `unwrap` on a refused settlement. */
  function Turn(c: MarketConf, s: Matched, limit: int): Verdict
  {
    if s.rest == [] then Stop
    else
      match Choose(c, s.taker, s.rest[0], s.quoteSum, limit)
      case StopHere => Stop
      case CancelHere => Cancel
      case TradeHere(amount) =>
        var d := MakeDeal(c, s.taker, s.rest[0], amount);
        match Settle(s.funds, DealUpdates(c, s.taker, s.rest[0], d, s.tradeId + 1))
        case Err(_) => Panic
        case Ok(funds) => Go(Advance(c, s, d, funds))
  }

  datatype Outcome = Panicked | Ended(s: Matched, needCancel: bool)

  function Match(c: MarketConf, s: Matched, limit: int): Outcome
    decreases |s.rest|
  {
    match Turn(c, s, limit)
    case Stop => Ended(s, false)
    case Cancel => Ended(s, true)
    case Panic => Panicked
    case Go(next) => Match(c, next, limit)
  }

  function Survivors(done: seq<Order>): seq<Order>
  {
    if done == [] then []
    else Survivors(done[..|done| - 1]) + if done[|done| - 1].remain == 0 then [] else [done[|done| - 1]]
  }

  function FinishEvents(done: seq<Order>): seq<Event>
  {
    if done == [] then []
    else
      FinishEvents(done[..|done| - 1])
      + if done[|done| - 1].remain == 0 then [OrderEvent(done[|done| - 1], FINISH)] else []
  }

  // ---------------------------------------------------------------- placing an order

  datatype Counters = Counters(orderId: nat, tradeId: nat, operationLogId: nat)

  /** The part of the exchange one market's operations touch. */
  datatype Venue = Venue(book: Book, funds: Funds, counters: Counters)

  datatype Placed = Placed(venue: Venue, order: Order, events: seq<Event>)

  function Start(taker: Order, makers: seq<Order>, v: Venue): Matched
  {
    Matched(taker, [], makers, v.funds, v.counters.tradeId, 0, v.book.price, v.book.tradeCount, [OrderEvent(taker, PUT)])
  }

  /** Whether the taker is put into the book when matching ends. */
  predicate Rests(m: Matched, needCancel: bool)
  {
    !needCancel && m.taker.kind == LIMIT && m.taker.remain != 0
  }

  function WithBacking(c: MarketConf, o: Order): Order
  {
    o.(frozen := Backing(c, o))
  }

  /** The market after the loop: finished makers leave the book, then the taker rests or ends. */
  function AfterMatch(c: MarketConf, v: Venue, m: Matched, needCancel: bool): Placed
  {
    var side := m.taker.side;
    var counter := Survivors(m.done) + m.rest;
    var book := v.book.WithSide(Opposite(side), counter).(price := m.price, tradeCount := m.tradeCount);
    var counters := v.counters.(tradeId := m.tradeId);
    var events := m.events + FinishEvents(m.done);
    if Rests(m, needCancel) then
      var order := WithBacking(c, m.taker);
      var funds := m.funds.(balances := Frozen(m.funds.balances, order.user, PayAsset(c, side), order.frozen));
      Placed(Venue(book.WithSide(side, Insert(side, book.Side(side), order)), funds, counters), order, events)
    else
      Placed(Venue(book, m.funds, counters), m.taker, events + [OrderEvent(m.taker, FINISH)])
  }

  function Execute(c: MarketConf, v: Venue, taker: Order, limit: int): Option<Placed>
  {
    var counter := v.book.Side(Opposite(taker.side));
    match Match(c, Start(taker, counter, v), limit)
    case Panicked => None
    case Ended(m, needCancel) => Some(AfterMatch(c, v, m, needCancel))
  }

  datatype PutError =
    | MarketOrdersDisabled | InvalidAmount | FeeNotSupported | InvalidAmountPrecision | InvalidPricePrecision
    | MarketOrderWithPrice | MarketOrderPostOnly | NoCounterOrders | InvalidPrice | NotEnough

  /** The checks of `put_order`, in its order. */
  function Refusal(c: MarketConf, v: Venue, input: OrderInput, user: Uuid): Option<PutError>
  {
    if input.kind == MARKET && c.disableMarketOrder then Some(MarketOrdersDisabled)
    else if input.amount < c.minAmount then Some(InvalidAmount)
    else if c.feePrec == 0 && (input.takerFee != 0 || input.makerFee != 0) then Some(FeeNotSupported)
    else if input.amount % c.amountStep != 0 then Some(InvalidAmountPrecision)
    else if input.price % c.priceStep != 0 then Some(InvalidPricePrecision)
    else if input.kind == MARKET && input.price != 0 then Some(MarketOrderWithPrice)
    else if input.kind == MARKET && input.postOnly then Some(MarketOrderPostOnly)
    else if input.kind == MARKET && v.book.Side(Opposite(input.side)) == [] then Some(NoCounterOrders)
    else if input.kind == LIMIT && input.price == 0 then Some(InvalidPrice)
    else
      var o := NewOrder(c, 0, input, user);
      var balance := Get(v.funds.balances, BalanceKey(user, AVAILABLE, PayAsset(c, input.side)));
      if input.side == ASK && balance < o.amount * c.lot then Some(NotEnough)
      else if input.side == BID && input.kind == LIMIT && balance < o.amount * o.price then Some(NotEnough)
      else None
  }

  function NewOrder(c: MarketConf, id: nat, input: OrderInput, user: Uuid): Order
  {
    var amount := input.amount / c.amountStep;
    Order(id, c.name, input.kind, input.side, user, input.postOnly, input.price / c.priceStep * c.tick, amount,
          input.makerFee, input.takerFee, amount, 0, 0, 0, 0)
  }

  /** Market bids spend at most this much quote: the balance, or less if the request says so. */
  function QuoteLimit(c: MarketConf, v: Venue, input: OrderInput, user: Uuid): int
  {
    if input.kind == MARKET && input.side == BID then
      var balance := Get(v.funds.balances, BalanceKey(user, AVAILABLE, c.quote));
      if input.quoteLimit == 0 then balance else Min(balance, input.quoteLimit / c.quoteStep)
    else 0
  }

  datatype PutResult = Refused(error: PutError) | Crashed | Accepted(placed: Placed)

  function NextOrderId(v: Venue): Venue
  {
    v.(counters := v.counters.(orderId := v.counters.orderId + 1))
  }

  /** Executes a request that passed the checks, under the next order id. */
  function Admit(c: MarketConf, v: Venue, input: OrderInput, user: Uuid): Option<Placed>
  {
    Execute(c, NextOrderId(v), NewOrder(c, v.counters.orderId + 1, input, user), QuoteLimit(c, v, input, user))
  }

  function PutOrder(c: MarketConf, v: Venue, input: OrderInput, user: Uuid): PutResult
  {
    match Refusal(c, v, input, user)
    case Some(e) => Refused(e)
    case None =>
      match Admit(c, v, input, user)
      case None => Crashed
      case Some(placed) => Accepted(placed)
  }

  // ---------------------------------------------------------------- taking orders out

  /** `order_finish` on an order that is in the book. */
  function Finish(c: MarketConf, book: Book, balances: Balances, o: Order): (Book, Balances)
  {
    (book.WithSide(o.side, Without(book.Side(o.side), o.id)),
     if o.remain == 0 then balances else Unfrozen(balances, o.user, PayAsset(c, o.side), o.frozen))
  }

  function Find(book: Book, id: nat): Option<Order>
  {
    var all := book.asks + book.bids;
    var i := IndexOf(all, id);
    if i < |all| then Some(all[i]) else None
  }

  /** Finishes the listed orders one by one. */
  function FinishAll(c: MarketConf, book: Book, balances: Balances, ids: seq<nat>): (Book, Balances, seq<Event>)
    decreases |ids|
  {
    if ids == [] then (book, balances, [])
    else
      match Find(book, ids[0])
      case None => FinishAll(c, book, balances, ids[1..])
      case Some(o) =>
        var (book1, balances1) := Finish(c, book, balances, o);
        var (book2, balances2, events) := FinishAll(c, book1, balances1, ids[1..]);
        (book2, balances2, [OrderEvent(o, FINISH)] + events)
  }
}
