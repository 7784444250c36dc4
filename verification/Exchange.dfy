/** The whole exchange as a value: many markets over one ledger, one duplicate cache and one set of
    counters, and what each request does to it.  Class Controller refines these functions. */
module Exchange {
  import opened Types
  import opened Orders
  import opened Ledger
  import opened Matching
  import Precision
  import Sums

  /** How a deposit or withdrawal of an asset is rounded: to `showStep`, each worth `showUnit` ledger units. */
  datatype AssetInfo = AssetInfo(showStep: Pos, showUnit: Pos)

  datatype Config = Config(confs: map<MarketName, MarketConf>, assets: map<Asset, AssetInfo>, userOrderLimit: nat)

  datatype Exchange = Exchange(books: map<MarketName, Book>, funds: Funds, counters: Counters)

  datatype PutRequest = PutRequest(market: MarketName, input: OrderInput)

  datatype Request =
    | BalanceUpdate(asset: Asset, delta: Fixed, business: nat, businessId: nat)
    | OrderPut(put: PutRequest)
    | BatchOrderPut(market: MarketName, reset: bool, orders: seq<PutRequest>)
    | OrderCancel(market: MarketName, orderId: nat)
    | OrderCancelAll(market: MarketName)

  /** `Crash` stands for a panic. */
  datatype Response = Accept | Reject | Crash

  datatype Effect = Effect(exchange: Exchange, response: Response, events: seq<Event>)

  function VenueOf(e: Exchange, n: MarketName): Venue
    requires n in e.books
  {
    Venue(e.books[n], e.funds, e.counters)
  }

  function WithVenue(e: Exchange, n: MarketName, v: Venue): Exchange
  {
    Exchange(e.books[n := v.book], v.funds, v.counters)
  }

  predicate Listed(cfg: Config, e: Exchange, n: MarketName)
  {
    n in cfg.confs && n in e.books
  }

  ghost function CountWeight(user: Uuid): (MarketName, Book) -> int
  {
    (n: MarketName, b: Book) => CountOf(b.asks, user) + CountOf(b.bids, user)
  }

  /** A user's open orders over all markets. */
  ghost function OpenOrders(books: map<MarketName, Book>, user: Uuid): int
  {
    Sums.Sum(books, CountWeight(user))
  }

  // ---------------------------------------------------------------- the requests

  function RoundedChange(info: AssetInfo, delta: Fixed): int
  {
    Precision.RoundHalfEven(delta, info.showStep) * info.showUnit
  }

  function ChangeParams(user: Uuid, asset: Asset, change: int, business: nat, businessId: nat): UpdateParams
  {
    UpdateParams(UpdateKey(AVAILABLE, if change >= 0 then Deposit else Withdraw, user, asset, business, businessId), change)
  }

  function UpdateBalance(cfg: Config, e: Exchange, user: Uuid, asset: Asset, delta: Fixed, business: nat, id: nat): Effect
  {
    if asset !in cfg.assets then Effect(e, Reject, [])
    else
      var change := RoundedChange(cfg.assets[asset], delta);
      match UpdateUserBalance(e.funds, ChangeParams(user, asset, change, business, id))
      case Err(_) => Effect(e, Reject, [])
      case Ok(funds) =>
        Effect(e.(funds := funds), Accept, if change == 0 then [] else [FundsEvent(user, asset, change)])
  }

  /** One order, under the per-user limit on open orders; the check is for equality only. */
  ghost function PutOne(cfg: Config, e: Exchange, user: Uuid, put: PutRequest): Effect
  {
    if !Listed(cfg, e, put.market) then Effect(e, Reject, [])
    else if OpenOrders(e.books, user) == cfg.userOrderLimit then Effect(e, Reject, [])
    else
      match PutOrder(cfg.confs[put.market], VenueOf(e, put.market), put.input, user)
      case Refused(_) => Effect(e, Reject, [])
      case Crashed => Effect(e, Crash, [])
      case Accepted(placed) => Effect(WithVenue(e, put.market, placed.venue), Accept, placed.events)
  }

  function FinishIn(cfg: Config, e: Exchange, n: MarketName, ids: seq<nat>): Effect
    requires Listed(cfg, e, n)
  {
    var (book, balances, events) := FinishAll(cfg.confs[n], e.books[n], e.funds.balances, ids);
    Effect(WithVenue(e, n, Venue(book, e.funds.(balances := balances), e.counters)), Accept, events)
  }

  function CancelAll(cfg: Config, e: Exchange, user: Uuid, n: MarketName): Effect
  {
    if !Listed(cfg, e, n) then Effect(e, Reject, [])
    else FinishIn(cfg, e, n, IdsOfUser(e.books[n].asks + e.books[n].bids, user))
  }

  function CancelOne(cfg: Config, e: Exchange, user: Uuid, n: MarketName, id: nat): Effect
  {
    if !Listed(cfg, e, n) then Effect(e, Reject, [])
    else
      match Find(e.books[n], id)
      case None => Effect(e, Reject, [])
      case Some(o) => if o.user != user then Effect(e, Reject, []) else FinishIn(cfg, e, n, [id])
  }

  function Then(first: Effect, second: Effect): Effect
  {
    second.(events := first.events + second.events)
  }

  /** The reset loop of a batch: cancels all of the user's orders once per entry, and gives up at the
      first entry for another market, keeping what it has done. */
  function ResetAll(cfg: Config, e: Exchange, user: Uuid, n: MarketName, orders: seq<PutRequest>): Effect
    decreases |orders|
  {
    if orders == [] then Effect(e, Accept, [])
    else if orders[0].market != n then Effect(e, Reject, [])
    else
      var first := CancelAll(cfg, e, user, n);
      Then(first, ResetAll(cfg, first.exchange, user, n, orders[1..]))
  }

  /** The placing loop of a batch: a refused order ends it, yet the batch counts as accepted. */
  ghost function PutAll(cfg: Config, e: Exchange, user: Uuid, n: MarketName, orders: seq<PutRequest>): Effect
    decreases |orders|
  {
    if orders == [] then Effect(e, Accept, [])
    else if orders[0].market != n then Effect(e, Reject, [])
    else
      var first := PutOne(cfg, e, user, orders[0]);
      match first.response
      case Reject => first.(response := Accept)
      case Crash => first
      case Accept => Then(first, PutAll(cfg, first.exchange, user, n, orders[1..]))
  }

  ghost function PutBatch(cfg: Config, e: Exchange, user: Uuid, n: MarketName, reset: bool, orders: seq<PutRequest>): Effect
  {
    if !Listed(cfg, e, n) then Effect(e, Reject, [])
    else
      var first := if reset then ResetAll(cfg, e, user, n, orders) else Effect(e, Accept, []);
      if first.response != Accept then first
      else Then(first, PutAll(cfg, first.exchange, user, n, orders))
  }

  ghost function Exec(cfg: Config, e: Exchange, user: Uuid, r: Request): Effect
  {
    match r
    case BalanceUpdate(asset, delta, business, id) => UpdateBalance(cfg, e, user, asset, delta, business, id)
    case OrderPut(put) => PutOne(cfg, e, user, put)
    case BatchOrderPut(n, reset, orders) => PutBatch(cfg, e, user, n, reset, orders)
    case OrderCancel(n, id) => CancelOne(cfg, e, user, n, id)
    case OrderCancelAll(n) => CancelAll(cfg, e, user, n)
  }

  // ---------------------------------------------------------------- runs

  datatype LogEntry = LogEntry(id: nat, user: Uuid, request: Request)

  /** One thing that happens to a running exchange: a request (served only if the log and the
      persistor can take it), or the expiry of some cached request keys. */
  datatype Input =
    | Serve(user: Uuid, request: Request, available: bool)
    | Expire(kept: set<UpdateKey>)

  /** The exchange, its operation log, and everything its persistor was told. */
  datatype World = World(exchange: Exchange, log: seq<LogEntry>, journal: seq<Event>, crashed: bool)

  ghost function Next(cfg: Config, w: World, i: Input): World
  {
    match i
    case Expire(kept) => w.(exchange := w.exchange.(funds := w.exchange.funds.(cache := w.exchange.funds.cache * kept)))
    case Serve(user, request, available) =>
      if !available then w
      else
        var r := Exec(cfg, w.exchange, user, request);
        var w' := w.(exchange := r.exchange, journal := w.journal + r.events, crashed := w.crashed || r.response.Crash?);
        if r.response.Accept? then Logged(w', user, request) else w'
  }

  function Logged(w: World, user: Uuid, request: Request): World
  {
    var id := w.exchange.counters.operationLogId + 1;
    w.(exchange := w.exchange.(counters := w.exchange.counters.(operationLogId := id)),
       log := w.log + [LogEntry(id, user, request)])
  }

  ghost function Run(cfg: Config, w: World, inputs: seq<Input>): World
    decreases |inputs|
  {
    if inputs == [] then w else Run(cfg, Next(cfg, w, inputs[0]), inputs[1..])
  }

  function Genesis(cfg: Config): World
  {
    World(Exchange(map n | n in cfg.confs :: EMPTY_BOOK, Funds(map[], {}), Counters(0, 0, 0)), [], [], false)
  }
}
