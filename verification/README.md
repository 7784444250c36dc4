# Verified model of the dingir exchange

This project models a matching engine that keeps its state in memory, and the two things that make
that state durable: the operation log with its snapshots, and the writers that persist the engine's
messages and commit message offsets.  It proves what each of these keeps, over every run.

`dafny verify dfyconfig.toml` checks the whole project.

## What is modelled

**The engine.**  `Types`, `Orders`, `Ledger`, `Matching` and `Exchange` say as functions what every
request does: the checks and execution of an order, the matching loop turn by turn, the four balance
updates of a trade, resting, finishing and cancelling, deposits and withdrawals, batches with reset.
`Settlement`, `MatchLoop`, `MatchShape`, `BookInvariant`, `VenueInvariant` and `ExchangeInvariant` prove
the invariants; `Acceptance` which orders are accepted; `Greedy` and `OrderExecution` what an order pays;
`Resting` what becomes of it; `Trades` what it is told of; `Holdings` who owns what; `Cancellation`,
`Deposits` and `Batches` what the other requests do and for whom; `SelfTrading` when the engine panics;
`Trace` and `TraceOfRuns` what the event stream tells of each order; `Depth` what the depth query shows;
`Precision` why settled amounts are never rounded.

**The objects.**  `Balances`, `Markets` and `Controllers` are classes that change their fields as the
engine does (shared order cells under four indexes, balances, the duplicate cache, counters), each
method proved to do what the functions above say.

**Recovery.**  `RefusedBatches`, `Replay` and `Snapshot` say what a snapshot and a log are worth;
`SliceLoading`, `Dumping` and `Recovery` prove the loops that write a slice, read it back into the
objects and replay the log; `InsertBatch` and `Placeholders` prove the statements that carry the rows.

**The writers.**  `Progress` is one partition's progress stack, `Writer` a database writer as a state
machine, `CommitChain` a topic's writers and the chain of trackers that decides what is committed;
`WriterSafety`, `ArrivalOrder` and `RowOrder` prove when a reported offset is safe, `LostRows` what the
commits do not cover.  `ProgTracing` and `NotifyTracking` are the objects.

Decimals are scaled integers (`Types`, `Precision`): an amount counts lots, a balance ledger units, a
price the quote units of one lot.

## Assumptions

They are in the contracts; here they are in one place.

- Requests (`Sensible`, `SensibleRequest`): prices and quote limits are not negative and fee rates are at
  most 1; the engine does not check these.
- Configuration (`SafeConf`, `SafeConfig`): minimum amounts are not negative, base and quote differ,
  precisions are those `Market::new` accepts, and, for whole exchanges, self-trading is disabled.  Module
  `SelfTrading` drops the last one.
- Units: an asset shows no more digits than its ledger stores (`AssetInfo` holds how many ledger units a
  shown step is), so a rounded deposit is a whole number of ledger units.  `Deposits` and `Acceptance`
  speak of value through the worth of one ledger unit; `Acceptance.WorthOfUnits` gives it for every
  market that can be set up.
- Replay and recovery need runs none of whose refused batches left a trace; `RecoversIffNoTrace` proves
  that this is exactly the right condition.
- Commit safety needs rows to arrive in order (`InOrder`); `InOrderIsExact` and
  `SafeIffOneTaskPerOffset` prove that this is exactly the right condition.

## Model

| member | source | states |
|---|---|---|
| Orders.InsertKeepsSorted | src/matchengine/market/order.rs:10-32 | putting an order in by its key keeps a side in price-time order |
| Orders.SortedIsUnique | src/matchengine/market/order.rs:10-32 | a sorted side is determined by which orders it holds: the key order is total |
| Ledger.UpdateIsExact | src/matchengine/asset/update_controller.rs:74-109 | a balance change is refused exactly when its key was used or the balance cannot cover it; otherwise it changes that one balance by exactly its amount, and no balance goes negative |
| Ledger.FreezingConserves | src/matchengine/asset/balance_manager.rs:133-163 | freezing and unfrozing move funds without making or losing any, and undo each other |
| Balances.BalanceUpdateController.UpdateUserBalance | src/matchengine/asset/update_controller.rs:74-135 | the object applies a change exactly as the ledger function says, and tells the persistor of non-zero deposits and withdrawals only |
| Balances.BalanceManager.Status | src/matchengine/asset/balance_manager.rs:167-183 | totals and counts are the sums over the whole ledger, free and frozen apart, zero balances not counted |
| Precision.CheckedPrecisionsAreExact | src/matchengine/market/mod.rs:97-101 | the precisions a market accepts are exactly those under which no trade's base or quote amount is ever rounded by the ledger |
| Precision.SettledAmountsAreExact | src/matchengine/market/mod.rs:174-183 | amounts and prices that pass the precision checks settle as whole ledger units |
| Precision.MarketUnits | src/matchengine/market/mod.rs:91-130 | when a market can be set up, and what its amount, price and quote steps, lots and ticks are worth in the configured digits |
| Precision.RoundingIsNearest | src/matchengine/controller.rs:356-359 | rounding is to the one nearest step, ties to even, and never changes the sign |
| Deposits.ChangeRounds | src/matchengine/controller.rs:356-359 | in value, a ledger change is the multiple of the shown step nearest to what was asked |
| Deposits.BalanceUpdateCredits | src/matchengine/controller.rs:344-401 | a deposit or withdrawal is accepted exactly when the asset is known, its key is not remembered and the balance covers it; it credits the requesting user with the ledger units nearest to it in value, tells of just that, and changes no other balance |
| Settlement.SettleIffAffordable | src/matchengine/market/mod.rs:436-522 | four updates of four different balances all go through exactly if each is new and affordable on its own, and then change just those balances |
| Settlement.SelfDealNeverSettles | src/matchengine/market/mod.rs:436-522 | a deal of a user with themself never settles: two of its updates carry one key |
| MatchLoop.SettlesIffTwoUsers | src/matchengine/market/mod.rs:357-522 | in any sound state of the loop, a trade it chooses settles if and only if taker and maker are different users |
| MatchLoop.MatchIsSafe | src/matchengine/market/mod.rs:322-551 | the whole matching loop never fails to settle, moves frozen funds exactly as orders shrink, and takes nothing out of the ledger but the fees charged |
| MatchShape.MatchEmptiesInOrder | src/matchengine/market/mod.rs:322-551 | every maker traded with but the last is emptied, and the last is left open only if the taker is spent |
| MatchShape.MatchStopsForReason | src/matchengine/market/mod.rs:343-371 | how a loop that ends left the taker: nothing to trade with, filled, price not met, or not one more lot affordable; and why it was cancelled |
| BookInvariant.RestingTakerDoesNotCross | src/matchengine/market/mod.rs:562-577 | an order that comes to rest crosses no order left on the other side |
| SelfTrading.SelfTradeCrashes | src/matchengine/market/mod.rs:352-355 | an order panics if and only if self-trading is enabled and, with it disabled, it would be cancelled at one of its user's own orders that it could trade at least a lot with; otherwise the flag changes nothing |
| SelfTrading.SelfTradeInput | src/matchengine/market/mod.rs:436-522 | one such request: it passes every check and panics |
| VenueInvariant.PutOrderIsSafe | src/matchengine/market/mod.rs:154-279 | placing any order on a sound market never panics, keeps the book sorted, uncrossed and fully backed and every balance non-negative, takes the next id, and conserves every asset up to the fees |
| VenueInvariant.FinishIsSafe | src/matchengine/market/mod.rs:609-628 | finishing an order takes out that order alone, gives back exactly what it had frozen, and keeps the market sound |
| ExchangeInvariant.NextIsOk | src/matchengine/controller.rs:336-504 | one request, served or refused, or an expiry of cached keys keeps the whole exchange sound |
| ExchangeInvariant.EveryRunIsOk | src/matchengine/controller.rs:336-504 | over every run: no panic, frozen funds are exactly what open orders need, no balance is negative, books are sound, ids unique, the order limit is kept, and each asset's total is deposits less withdrawals less fees |
| Holdings.OrderMovesHoldings | src/matchengine/market/mod.rs:436-522 | who gets what: an accepted order changes each user's holding of each asset, free and frozen, by what its trades say: the buyer gets the base less the fee and gives the quote, the seller the reverse |
| Holdings.RequestMovesHoldings | src/matchengine/controller.rs:336-504 | whatever a request does, each user's holdings change by what its events bring them |
| Holdings.HoldingsFromGenesis | src/matchengine/controller.rs:336-504 | over every run from the empty start, what a user holds of an asset is what their own deposits, withdrawals and trades add up to |
| Cancellation.CancelServesOwner | src/matchengine/controller.rs:460-482 | a cancellation is accepted exactly when the market has an open order of this id of the requesting user; it takes out that order alone and frees what backed it, and otherwise changes nothing |
| Cancellation.CancelAllServesUser | src/matchengine/controller.rs:484-504 | takes out exactly the user's orders in the market, frees exactly what backed them, and touches no one else's order or balance |
| Acceptance.OrderIsAcceptedIff | src/matchengine/market/mod.rs:154-230 | in the request's own units: an order is accepted exactly when nothing is wrong with it, and the reason given for a refusal is true |
| Acceptance.PutOneIsAcceptedIff | src/matchengine/controller.rs:667-691 | the exchange accepts an order exactly when its market exists, its user is not at the limit of open orders and nothing is wrong with it; a refusal changes nothing |
| Batches.BatchPlaces | src/matchengine/controller.rs:414-458 | a batch is one cancellation of the user's orders, if it asks for a reset, and then its orders placed one by one up to the first refused or stray one, and none after it |
| Greedy.MatchIsGreedy | src/matchengine/market/mod.rs:322-551 | the loop fills the best makers first, touches only willing ones, and the taker gets what they gave at their prices |
| Greedy.BestExecution | src/matchengine/market/mod.rs:322-551 | no other choice of makers for the same quantity would have been better for the taker |
| Greedy.MarketBidUsesItsBudget | src/matchengine/market/mod.rs:358-371 | a market bid stays within its limit, and what it leaves unspent does not buy one more lot |
| OrderExecution.OrderIsGreedy | src/matchengine/market/mod.rs:154-579 | for every accepted order, seen in the book alone: what the resting orders gave up is a best-first fill, equals what the order got, and costs what the order paid |
| OrderExecution.OrderIsBest | src/matchengine/market/mod.rs:154-579 | for every accepted order, no other fill of the same quantity from the book would have cost a bid less or paid an ask more |
| OrderExecution.OrderHasPriority | src/matchengine/market/order.rs:10-32 | price-time priority: no resting order gives up a lot before every better-priced one, and every older one at its price, has given up all |
| OrderExecution.MarketBidIsSpent | src/matchengine/market/mod.rs:231-249 | every accepted market bid spends no more than its user has free and no more than the quote limit of the request; left unfilled, one more lot would have been too much for one of them |
| OrderExecution.PutOneIsBest | src/matchengine/controller.rs:667-691 | best execution for every order any sound exchange accepts |
| Resting.OrderOutcome | src/matchengine/market/mod.rs:343-577 | an accepted order rests exactly when it is a limit order not filled and its price does not meet the best order left; it gives up what it could still trade only if post-only, at its own user's order, or a market bid |
| Trades.IncomingIsRequest | src/matchengine/market/mod.rs:251-271 | every field of the order a request becomes, in the request's own units |
| Trades.OrderTrades | src/matchengine/market/mod.rs:378-545 | an accepted order is told of one trade with each order it takes from, best first: the users and ids of the two orders, the maker's price, what the maker gave up, the taker's taker fee and the maker's maker fee cut off toward zero, consecutive ids, snapshots with first trades; the trades are counted and leave the last price |
| Trades.ChangedAreTold | src/matchengine/market/mod.rs:531-545 | a resting order it changed and left open is told of as it now is |
| Depth.DepthIsFaithful | src/matchengine/market/mod.rs:742-773 | levels are multiples of the interval, strictly ordered, each with the amount of all orders whose prices lie within one interval of it on the side away from the other; an order not shown is behind all `limit` levels; with an interval that is not negative every bid shown is below every ask shown |
| Depth.DepthIsComplete | src/matchengine/market/mod.rs:732-773 | with a large enough limit a level is shown exactly when it is a multiple of the interval and an order is within it, and the amounts add up to what `status` reports |
| TraceOfRuns.EveryRunTellsStory | src/matchengine/market/mod.rs:301-577 | over every run, the events of each order read as one PUT, then trades that name the user, side and market of the order put and keep its limit, updates that agree with them, and at most one FINISH; and they fit where the order is |
| TraceOfRuns.StorySaysWhere | src/matchengine/market/mod.rs:301-577 | from the events alone: an order is in a book exactly while its story is open |
| RefusedBatches.RefusedChangesNothingIff | src/matchengine/controller.rs:414-458 | a refused request leaves the exchange as it was if and only if it is no batch past its first order, or a reset with nothing to cancel |
| RefusedBatches.MixedBatchIsLost | src/matchengine/controller.rs:436-450 | a batch for two markets: its first order is placed, the batch refused, nothing logged |
| Replay.RequestsAlike | src/matchengine/controller.rs:645-666 | an exchange that agrees on what a snapshot keeps accepts a logged request, with the same effect, exactly when it has not seen its key |
| Replay.ReplayIsExact | src/matchengine/controller.rs:645-666 | replaying what a run logged succeeds exactly if no key comes twice, and ends where the run ended |
| Snapshot.SliceRoundTrip | src/matchengine/persist/state_save_load.rs:86-165 | loading a dump, its rows in any order, rebuilds the dumped balances, books and counters |
| Snapshot.RecoveryIsExact | src/matchengine/persist/state_save_load.rs:228-241 | a slice taken at any moment and the log kept since recover the exchange exactly, unless a key comes twice |
| Snapshot.RecoversIffNoTrace | src/matchengine/persist/state_save_load.rs:228-241 | where no key comes twice, recovery is exact at every moment of a run if and only if no refused batch of the run left a trace |
| Snapshot.ReusedKeyPanics | src/matchengine/persist/state_save_load.rs:188-216 | a deposit repeated after its key expired is accepted and logged twice, and the restart panics |
| Snapshot.MixedBatchRun | src/matchengine/controller.rs:436-450 | a run from an empty exchange that loses an order: what start-up recovers has never seen it |
| Markets.Market.PutOrder | src/matchengine/market/mod.rs:154-279 | on shared cells and four indexes: does exactly what the order function says, never panics, and keeps the indexes in step |
| Markets.Market.OrderFinish | src/matchengine/market/mod.rs:609-628 | takes one order out of all four indexes and gives back its backing |
| Markets.Market.CancelOrder | src/matchengine/market/mod.rs:684-689 | finishes the order under this id and no other |
| Markets.Market.CancelAllForUser | src/matchengine/market/mod.rs:690-711 | finishes all of the user's orders, oldest first, and counts them |
| Markets.Market.InsertOrder | src/matchengine/market/mod.rs:582-608 | computes the backing and enters the order into all four indexes at its place |
| Controllers.Controller.OrderNumOfUser | src/matchengine/controller.rs:671-675 | the sum over the markets is the user's open orders |
| Controllers.Controller.Serve | src/matchengine/controller.rs:336-504 | a request on the objects is one step of the exchange: state, log, events and response, whatever the request |
| Controllers.Controller.Replay | src/matchengine/controller.rs:645-666 | replaying an entry does the same to the state and tells neither persistor nor log |
| Controllers.Controller.ReplayAll | src/matchengine/persist/state_save_load.rs:203-213 | replays entries until one is refused; says whether none was |
| Dumping.DumpToDb | src/matchengine/persist/state_save_load.rs:290-362 | what a dump leaves in the tables, whichever statements fail, is a slice of the exchange: every balance and every open order once |
| SliceLoading.PageIsFront | src/matchengine/persist/state_save_load.rs:86-165 | asking for rows after the last id seen, a thousand at a time, misses and repeats none; a short page is the last |
| SliceLoading.PagesAreEntriesAfter | src/matchengine/persist/state_save_load.rs:188-216 | the pages of the log hold exactly the entries after the slice's |
| Recovery.LoadSlice | src/matchengine/persist/state_save_load.rs:86-165 | reads a slice into an empty controller's objects, page by page, and makes of it what the load function says |
| Recovery.LoadOperationLog | src/matchengine/persist/state_save_load.rs:188-216 | reads and replays the log page by page; succeeds exactly if no entry is refused, and takes up the log's counter |
| Recovery.InitFromDb | src/matchengine/persist/state_save_load.rs:228-241 | start-up on the objects does exactly what the recovery function says, with or without a slice |
| Recovery.RecoverRun | src/matchengine/persist/state_save_load.rs:228-362 | from the tables a dump filled and the log of the run since, start-up succeeds exactly if no key comes twice, and the objects then hold what the run ended with |
| InsertBatch.SqlQueryFine | src/storage/sqlxextend.rs:256-297 | inserts all rows in order, or returns exactly the suffix that was not inserted |
| InsertBatch.FineIsFew | src/storage/sqlxextend.rs:271-286 | the pieces are few: at most one statement per 1024 rows and eight more |
| InsertBatch.DumpRecords | src/matchengine/persist/state_save_load.rs:245-288 | whichever statements fail, every record is inserted once and in order, and counted |
| Placeholders.RowsAreComplete | src/storage/sqlxextend.rs:131-161 | every row has DEFAULT in exactly the declared columns, and is complete if and only if these fit |
| Placeholders.PlaceholdersInBindOrder | src/storage/sqlxextend.rs:216-241 | placeholders 1 to n * argn occur once each, in the order in which fields are bound |
| Progress.PushTracks | src/storage/database.rs:44-50 | pushing a new tag keeps the stack a faithful summary of what was pushed and finished, sorted or not |
| Progress.PopTracks | src/storage/database.rs:52-72 | taking a tag out keeps it so |
| Progress.PopReportsWatermark | src/storage/database.rs:52-72 | a finished tag is reported exactly when it was the lowest outstanding, and the report is the largest tag below all outstanding ones |
| Progress.ReportsIncrease | src/storage/database.rs:52-72 | reports strictly increase, and when nothing is outstanding the last report is the largest tag |
| ProgTracing.ProgTracingStack.PopTop | src/storage/database.rs:52-72 | popping by swapping entries down the vector computes the specified pop |
| ProgTracing.ProgTracing.FinishFrom | src/storage/database.rs:206-219 | pops every partition of a task and collects exactly what the stacks report |
| ProgTracing.DatabaseWriterScheduleCtx.Schedule | src/storage/database.rs:520-599 | the scheduler loop on its objects is a run of the writer's state machine |
| Writer.EveryRowIsAccounted | src/storage/database.rs:520-599 | however moves interleave, each row taken is queued, failed, running or written, in exactly one of them; a graceful exit leaves none unwritten |
| ArrivalOrder.InOrderIsExact | src/storage/database.rs:555-577 | for any arriving row: everything the writer can go on to report without further arrivals is safe if and only if no other task's tag has reached the row's offset |
| ArrivalOrder.OutOfOrderLoses | src/storage/database.rs:555-577 | otherwise, the moves by which the writer comes to report an offset that covers the row while it is queued |
| RowOrder.InOrderMeansOneTask | src/storage/database.rs:292-300 | while offsets do not fall, a row is in order if and only if it is the first of its offset or joins the task that holds the others |
| RowOrder.SafeIffOneTaskPerOffset | src/storage/database.rs:292-300 | for every run whose offsets do not fall: no watermark ever covers an unwritten row, however the run goes on, if and only if no two tasks carry rows of one partition and offset |
| RowOrder.OneTaskRunIsInOrder | src/message/persist.rs:30-35 | runs of a topic with one task per offset meet the condition of commit safety |
| CommitChain.MergeEmitsMinimum | src/message/persist.rs:306-341 | a tracker entry remembers its larger side and emits the smaller one |
| CommitChain.CommitSafety | src/message/persist.rs:385-520 | for any writers, any chain of listeners and any interleaving with rows in order: when an offset is committed, every writer listened to has written every row it took up to it |
| CommitChain.CommitsAreExact | src/message/persist.rs:385-520 | the offset committed last is exactly the least watermark all levels have seen: nothing is held back |
| NotifyTracking.NotifyTracker.Merge | src/message/persist.rs:372-382 | merges a map of watermarks in place and collects exactly what the entries emit |
| NotifyTracking.NotifyTrackerReceiver.Changed | src/message/persist.rs:403-443 | a listener's turn changes the trackers and commits exactly as the chain's step says |
| LostRows.CommitCoversOffered | src/message/persist.rs:30-35 | when an offset is committed, every row offered up to it is written if and only if the writer's channel refused none of them |
| LostRows.RefusedRowIsLost | src/storage/database.rs:383-395 | a run in which a refused row's offset is committed and the row never written |
| LostRows.SplitPairIsLost | src/bin/persistor.rs:64-69 | a run in which the second of two rows of one offset is not written when the offset is committed |

## Findings

Inputs and runs on which the engine does not do what it is for, each with its exact condition.

- **Two rows of one offset in two tasks** (src/bin/persistor.rs:64-69, src/storage/database.rs:555-577).  The ask
  and the bid row of a trade go to one writer with one offset.  If a connection is acquired between the
  two, they end up in two tasks with the same tag; when the first is written the offset is committed,
  and a crash then loses the second.  `LostRows.SplitPairIsLost` is such a run;
  `ArrivalOrder.InOrderIsExact` and `RowOrder.SafeIffOneTaskPerOffset` give the exact condition.
- **Rows dropped by a full channel** (src/message/persist.rs:33, src/storage/database.rs:383-395 and 606).  A row
  is offered with `try_send` and the result ignored, so a full or closed channel drops it, while later
  offsets are committed.  `LostRows.RefusedRowIsLost` is such a run; `LostRows.CommitCoversOffered` is
  exact.
- **Batches refused half way** (src/matchengine/controller.rs:424-450).  A batch that meets an order for
  another market is refused and not logged, but the orders before it stay placed, and a reset stays
  done; a restart forgets them.  `Snapshot.MixedBatchRun` is such a run;
  `RefusedBatches.RefusedChangesNothingIff` and `Snapshot.RecoversIffNoTrace` are exact.
- **A key used again after it left the cache** (src/matchengine/asset/update_controller.rs:67-69 and 109,
  src/matchengine/persist/state_save_load.rs:211).  Keys expire, so the same deposit can be accepted and logged
  twice; replaying both against one cache refuses the second, and start-up unwraps the refusal.
  `Snapshot.ReusedKeyPanics` is such a run; `Snapshot.RecoveryIsExact` is exact.
- **Self-trading enabled** (src/matchengine/market/mod.rs:352-355 and 436-522).  A user's order that meets their
  own makes four updates, two with one key; the second is refused as a duplicate and unwrapped.
  `SelfTrading.SelfTradeInput` is such a request; `SelfTrading.SelfTradeCrashes` is exact.  A market bid
  whose remaining quote does not buy one lot of its own order stops there instead of panicking.

## Left out

- Decimals: amounts are unbounded scaled integers; the 28-digit limit of `Decimal`, overflow and the sign of zero are not modelled.
- Debug assertions and the counters' 64-bit width.
- The duplicate cache's time-to-live and capacity: any subset of the keys may expire at any time.
- Timestamps, `put_balance` messages and the market price noted in them, JSON details, order messages' encoding.
- Parsing of requests, and the gRPC, HTTP and message-broker layers; `order_query` and the other plain queries.
- `Controllers.Controller.ReplayAll`: on replay the log and the persistor are taken to be available; were the log writer's queue full, the entry would be refused and start-up would panic.
- The log as a table: an entry is in the log at once. It is written asynchronously, and one the log writer's channel refuses is dropped (src/matchengine/controller.rs:692-706); after such a loss the recovery results do not apply.
- `OperationLog` rows as SQL: which columns a row binds.
- `Recovery.LoadSlice`: column types; DECIMAL columns keep the digits of the ledger's precisions in the model.
- `InsertBatch.SqlQueryFine`: a statement that fails after the database committed it; `ON CONFLICT DO NOTHING` is what covers it.
- `Dumping.DumpToDb`: the fork that dumps a frozen copy of the process; the controller does not change during the dump.
- Deleting old slices, `debug_reset`, `debug_reload` and `market_reload`; the set of markets and assets is fixed.
- `CommitChain.CommitSafety`: rows still in a writer's channel have not arrived; the final commit on shutdown (`final_status`) is not modelled, and it commits the larger side of the outermost tracker, which the theorem does not cover.
- Connections that cannot be acquired: a move that does not happen.
