# Vibranium exchange: a Dafny model

A Dafny model of the matcher pipeline of an exchange for one symbol, from placing an order to the
settled trade, with proofs about every run of it.

* **Order book and engine.** `LevelHeap`, `ElementQueues` and `OrderBook` are the in-memory book: two
  binary heaps of price levels with back-indices, two price maps, FIFO lists and a location map,
  changed in place. `PriorityBook` is what it stands for, two lists in price-time order; `Engine` is
  the matching loop on the live book and `Matching` the same on values. `PriceTime` and
  `BookContents` say what matching achieves.
* **Money.** `Wallets`, `Settlement`, `Conservation`, `Ledger` and `Placement`: reservation, settlement
  with price improvement, release, and the ledger law that ties every user's reservations to that
  user's live orders. `Consistency` and `Entries` carry that law, the fill accounting and the
  agreement of book and tables through a whole stream entry. `Refusals` says exactly which entries
  are refused, on whatever book a run has come to. `Int64` says exactly when everything an entry
  computes fits an int64, and `Int64Runs` what that means for whole runs. `Arrivals` says what a
  NEW_ORDER does in prices and balances, `Fairness` that recorded trades are within the limits of both
  orders and explain every user's holdings, and `Provenance` that orders, events and cancellations come
  from requests of the right user.
* **Matcher protocol.** `WalletCache`, `Matcher` and `MatcherLoop` are the consume loop as it works on
  objects; `ConsumerLoop` is the same on values. `Exchange` is the pipeline as one state machine
  (API transactions, relay, deliveries, commits with lost replies, aborts, lost acks, rebuilds,
  crashes). `Safety` holds in all its runs. `CleanRuns` and `Guarantees` hold in the disciplined
  ones: no NEW_ORDER appended to the stream a second time, no batch committed on a book that does not
  agree with the tables, a rebuild only when the matcher has seen every open LIMIT order. Cancel
  requests may be in the stream any number of times, and marks may be lost. `LoopRuns` shows that the
  loop, with the API and the relay at work between its transactions, takes steps of the machine only,
  and when they are disciplined.
* **Recovery.** `Recovery`, `RoundTrip` and `Transparency`: what a rebuilt book holds, when it equals
  the live one, and that nothing afterwards, disciplined or not, can tell them apart.
* **Limits of the promises.** `Boundaries`, `DoubledOrders`, `DirtyRecovery`, `DirtyRuns`, `StuckLists`,
  `Reopening` and `ClockSkew` give, for the places where the code does less than its comments say, an
  input that shows it and the exact condition that rules it out. `Histories` builds the runs that the
  inputs come at the end of.
* **Relay, locks, pages.** `Outbox`, `RowLocks` and `Pagination` are three smaller machines.
  `Publishing` puts the relay, with any number of publishers, into the large one, and
  `Interleavings` does the same for placements and batches that lock wallet rows one by one
  (`SerialTransactions` has the changes they make). Both are runs of the large machine.

The wall clock, fresh ids, rows returned by queries whose order the database chooses, and the outcome
of every I/O call are parameters, so each result holds for all their values. Amounts are unbounded
integers; int64 range is a separate result. Go's truncating division is `TruncDiv`.

Where code and comments part, the model follows the code: available funds subtract the reservation a
second time and can be negative; the errors of `Fill` are dropped in the matching loop; a rebuild
loads open LIMIT orders the matcher has not seen yet, and two of them that cross can then fail every
drain or open a filled order again; an order that rests twice is sold once and then blocks its side;
recovery goes on after a failed drain even with a dirty book; and the relay publishes a row again after
a failed commit. The disciplined runs assume none of this away except a second copy of a NEW_ORDER, a
batch on a book that disagrees with the tables, and a rebuild that is too early; a poisoned BUY MARKET
(available funds at or below minus the best ask) is part of them and fails.

## Model

| member | source | states |
|---|---|---|
| LevelHeaps.LevelHeap.Up | internal/domain/matching/book.go:28-49 | sift-up of the heap: from heap order everywhere but at one position to heap order everywhere, with the same levels and every back-index equal to its position |
| LevelHeaps.LevelHeap.Down | internal/domain/matching/book.go:28-49 | sift-down: repairs the position it starts from or reports that nothing moved, with levels and back-indices kept as above |
| LevelHeaps.LevelHeap.Push | internal/domain/matching/book.go:37-41 | a pushed level joins the others and the heap is valid again |
| LevelHeaps.LevelHeap.Remove | internal/domain/matching/book.go:128-140 | removing a level by its back-index takes out that level and no other and leaves a valid heap |
| LevelHeaps.RootIsBest | internal/domain/matching/book.go:51-56 | in a heap no level is better than the one at the root |
| OrderBooks.BookSide.PeekIsBest | internal/domain/matching/book.go:51-56 | the root level is at the best price of the side, and its list begins with the first order of the price-time queue; no root exactly when the side is empty |
| OrderBooks.OrderBook.BestIsFront | internal/domain/matching/book.go:94-109 | BestOpposite and FrontOrder give the first order of the opposite side in price-time order, for any valid book |
| OrderBooks.OrderBook.AddResting | internal/domain/matching/book.go:111-124 | the heap, price map, level lists and locations together refine inserting into a price-sorted list behind every order at least as good; every structural invariant is kept |
| OrderBooks.OrderBook.RemoveFront | internal/domain/matching/book.go:126-140 | refines taking the element the id points at out of the list, if it is on that level, and forgetting the id; an emptied level leaves heap and map |
| OrderBooks.OrderBook.Cancel | internal/domain/matching/book.go:142-153 | refines removal by id and returns the very order object, which is then nowhere on the book; null exactly for an id not on it |
| OrderBooks.OrderBook.constructor | internal/domain/matching/book.go:77-85 | a new book is valid and empty |
| OrderBooks.OrderBook.ViewWellFormed | internal/domain/matching/book.go:64-75 | the list the structure stands for is sorted, has distinct elements, and every recorded location points at an order with that id |
| PriorityBook.AddRestingWellFormed | internal/domain/matching/book.go:111-124 | insertion keeps both sides sorted by price then arrival and all locations right, also when the id rests already |
| PriorityBook.RemoveFrontWellFormed | internal/domain/matching/book.go:126-140 | removal keeps the same |
| Orders.FillRow | internal/domain/order/order.go:64-80 | a fill within the remaining quantity lowers it by exactly that much and keeps status and filled quantity in step; any other fill changes nothing |
| Orders.Order.Fill | internal/domain/order/order.go:64-80 | error exactly for a non-positive or excessive quantity, otherwise the row FillRow gives |
| Orders.Order.Cancel | internal/domain/order/order.go:83-89 | cancels a live order and leaves a finished one as it is |
| Wallets.ReserveBrl | internal/domain/wallet/wallet.go:32-42 | the error is for the first check that fails; it succeeds exactly for a positive amount within the available one; moves BRL without changing the total; keeps all four fields non-negative |
| Wallets.ReserveVib | internal/domain/wallet/wallet.go:45-55 | the same for Vibranium |
| Wallets.ReleaseBrl | internal/domain/wallet/wallet.go:59-69 | the error is for the first check that fails; it succeeds exactly for a positive amount within the reservation and keeps the total |
| Wallets.ReleaseVib | internal/domain/wallet/wallet.go:73-83 | the same for Vibranium |
| Wallets.SettleBuyLimit | internal/domain/wallet/wallet.go:88-99 | the error is for the first check that fails; it succeeds exactly when the reservation covers the cost; total BRL falls by the cost, total Vibranium rises by the quantity |
| Wallets.SettleBuyMarket | internal/domain/wallet/wallet.go:106-117 | the error is for the first check that fails; it succeeds exactly when the balance covers the cost; totals move the same way |
| Wallets.SettleSell | internal/domain/wallet/wallet.go:121-131 | the error is for the first check that fails; it succeeds exactly when the reserved Vibranium covers the quantity; totals move the opposite way |
| Wallets.Wallet.ReserveBRL | internal/domain/wallet/wallet.go:32-42 | the object's four fields end as ReserveBrl says, unchanged on an error |
| Wallets.Wallet.ReserveVibranium | internal/domain/wallet/wallet.go:45-55 | the same with ReserveVib |
| Wallets.Wallet.ReleaseBRLReservation | internal/domain/wallet/wallet.go:59-69 | the same with ReleaseBrl |
| Wallets.Wallet.ReleaseVibraniumReservation | internal/domain/wallet/wallet.go:73-83 | the same with ReleaseVib |
| Wallets.Wallet.SettleBuyLimitFill | internal/domain/wallet/wallet.go:88-99 | the same with SettleBuyLimit |
| Wallets.Wallet.SettleBuyMarketFill | internal/domain/wallet/wallet.go:106-117 | the same with SettleBuyMarket |
| Wallets.Wallet.SettleSellFill | internal/domain/wallet/wallet.go:121-131 | the same with SettleSell |
| Engine.Match | internal/domain/matching/engine.go:39-112 | the loop on the live book, filling order objects in place, computes the trades, makers, funds, remainder and book of the value model, for every valid book, order and funds value, negative funds included |
| Engine.MatchOnce | internal/domain/matching/engine.go:42-99 | one iteration is one step of the value model, or the loop is left exactly when that has no step |
| Matching.StepDecreases | internal/domain/matching/engine.go:42-99 | termination for every funds value: each iteration lowers the remaining quantity or, at the same remaining quantity, the debt |
| PriceTime.MatchIsPriceTimeWalk | internal/domain/matching/engine.go:39-112 | from a healthy book and an unpoisoned taker: the makers traded with are a prefix of the opposite queue, each once, all but the last used up, each at its own price, at or below the limit of a LIMIT buyer and at or above that of a LIMIT seller; quantities positive; filled quantity and funds change by exactly the sum of the trades; market spend stays within the funds; and the loop ends only when the taker is filled, nobody is left, the next price is above a buyer's limit or below a seller's, or one more unit is not affordable |
| Fairness.NeverBeyondTheLimit | internal/domain/matching/engine.go:42-54 | whatever state the book is in, a LIMIT taker never buys above or sells below its limit |
| Arrivals.ArrivalOutcome | internal/application/matcherapp/consumer_loop.go:309-429 | what a first, unpoisoned NEW_ORDER does, in prices, quantities and wallet fields: trades of positive quantity within its limit, at the best prices there are; a BUY MARKET spends at most its balance less its reservation; the row is filled by exactly its trades and ends FILLED, open or cancelled accordingly; and there is a remainder only if nobody is left on the other side, the next order is beyond the limit, or the next unit costs more than the BUY MARKET has left |
| Arrivals.EveryArrival | internal/application/matcherapp/consumer_loop.go:242-262 | so it is in every disciplined run, for every unprocessed NEW_ORDER entry that is not such a BUY MARKET |
| Fairness.EveryTradeIsFair | internal/application/matcherapp/consumer_loop.go:309-404 | in every run each recorded trade is for a positive quantity and price, between a BUY order of its buyer and a SELL order of its seller, within the limits of both and at the limit of one |
| Fairness.HoldingsAreTrades | internal/application/matcherapp/consumer_loop.go:349-467 | in every run what a user holds, reserved or not, is what the user began with, changed by exactly the user's recorded purchases and sales |
| BookContents.MatchKeepsBook | internal/domain/matching/engine.go:39-112 | matching keeps the book healthy and bids below asks |
| BookContents.CancelUncrossed | internal/domain/matching/book.go:142-153 | so does cancelling |
| BookContents.CancelContents | internal/domain/matching/book.go:142-153 | cancelling an id changes what the book holds for that id and for no other |
| Conservation.BatchConserves | internal/application/matcherapp/consumer_loop.go:202-271 | a batch, self-trades included, leaves total BRL and total Vibranium as they were and no wallet field negative |
| Ledger.TradeKeepsSound | internal/application/matcherapp/consumer_loop.go:349-389 | a trade between live orders always settles, price improvement included, and afterwards every user's reservations are again exactly what that user's live orders need |
| Ledger.RefundKeepsSound | internal/application/matcherapp/consumer_loop.go:443-466 | the reservation covers the refund of a live LIMIT order, the refund succeeds, and with the order cancelled the reservations are exact again |
| Ledger.RemainderKeepsSound | internal/application/matcherapp/consumer_loop.go:412-428 | the same for what is left of a MARKET order: a SELL is released in full, a BUY needs nothing |
| Placement.ValidateAccepts | internal/application/orders/place_order_service.go:59-87 | validation lets through exactly the requests with valid terms whose BUY LIMIT cost fits an int64; the division in the check loses nothing |
| Placement.PlaceKeepsSound | internal/application/orders/place_order_service.go:157-170 | a placement reserves exactly what the new order needs, so reservations stay exact |
| Placement.PlaceConserves | internal/application/orders/place_order_service.go:157-170 | a placement leaves both totals alone |
| Placement.PlaceReply | internal/application/orders/place_order_service.go:59-170 | each reply if and only if: a quantity that is not positive, a request that cannot be an order, an unknown user, a user without a wallet, a cost or quantity above balance less reservation; accepted exactly if none of these |
| Placement.PlaceOutcome | internal/application/orders/place_order_service.go:144-195 | for all four kinds of order, the row and the event of an accepted request have its user, side, type, price and quantity, nothing filled and OPEN; a BUY LIMIT reserves its cost, a SELL its quantity, a BUY MARKET nothing; nothing else changes |
| Placement.CancelReplyIff | internal/application/orders/cancel_order_service.go:70-104 | not found if and only if the order is unknown, forbidden if and only if it is another user's, the status of a finished order to its owner, and a cancel queued if and only if the owner asks for a live order |
| Provenance.EveryOrderWasPlaced | internal/application/orders/place_order_service.go:144-195 | in every run each order has the terms of the placement request it came from, and its time of creation |
| Provenance.EveryEventWasAskedFor | internal/application/orders/cancel_order_service.go:77-104 | in every run each outbox event comes from one step: a NEW_ORDER from a placement with the same terms, a CANCEL_ORDER from a request by the owner of the order, which was live then |
| Provenance.OnlyTheOwnerCancels | internal/application/matcherapp/consumer_loop.go:431-467 | in every run a LIMIT order that reads CANCELLED was live when its own user asked for that |
| OrderServices.OrderService.PlaceOrder | internal/application/orders/place_order_service.go:97-203 | order row, reservation and outbox event together or not at all; the row and the event have the user, side, type, price and quantity of the request, and the wallet gives up what the request takes; after a commit the tables are those of the machine's placement step; the error reported is the one for the first check that fails |
| OrderServices.OrderService.RequestCancel | internal/application/orders/cancel_order_service.go:49-104 | unknown, foreign and finished orders queue nothing, and the reply says which; the owner of a live order gets one event queued |
| Consistency.NewKeepsConsistent | internal/application/matcherapp/consumer_loop.go:309-429 | a first, unpoisoned NEW_ORDER is applied, and afterwards reservations are exact, every filled quantity is the sum of the order's trades, and the book is exactly the live LIMIT rows seen |
| Entries.NewSucceedsIff | internal/application/matcherapp/consumer_loop.go:309-429 | from agreement, a first NEW_ORDER is applied if and only if it is not a BUY MARKET with available funds at or below minus the best ask |
| Entries.PoisonedOutcome | internal/application/matcherapp/consumer_loop.go:309-404 | what becomes of that one: exactly one trade, of the truncated quotient of funds and best ask, nothing filled, the book as it was, and an error |
| Entries.CancelOutcome | internal/application/matcherapp/consumer_loop.go:431-467 | a cancel of an order that does not rest changes nothing; of one that does, it refunds exactly what the order still needed and marks its row; it never fails |
| Entries.CancelKeepsConsistent | internal/application/matcherapp/consumer_loop.go:431-467 | a cancel keeps the agreement of tables and book and leaves every other and every finished row alone |
| WalletCaches.LoadWallet | internal/application/matcherapp/consumer_loop.go:230-240 | a wallet is read once per batch; reading changes nothing |
| WalletCaches.SettleTrade | internal/application/matcherapp/consumer_loop.go:349-389 | settling on cached wallet objects, buyer and seller possibly the same one, equals settling on the table |
| WalletCaches.SettleTrades | internal/application/matcherapp/consumer_loop.go:349-404 | so for all trades of a match, and it fails exactly when the table version does |
| WalletCaches.Flush | internal/application/matcherapp/consumer_loop.go:264-268 | one write per wallet leaves the table every operation applied directly would have left |
| Matchers.ApplyNewOrder | internal/application/matcherapp/consumer_loop.go:309-429 | on the live book, cache and rows, does what the value model of a NEW_ORDER entry says, errors included; if the connection fails on the way the book keeps the matching |
| Matchers.ApplyCancelOrder | internal/application/matcherapp/consumer_loop.go:431-467 | likewise for CANCEL_ORDER |
| Matchers.ApplyOne | internal/application/matcherapp/consumer_loop.go:242-262 | an entry under the processed-entries guard: a repeated one does nothing, a malformed or unknown one is only marked |
| Matchers.RunBatch | internal/application/matcherapp/consumer_loop.go:202-271 | wherever the connection fails, before an entry, inside one or at the end, and whatever COMMIT answers, the tables end with the whole batch or none of it, a lost reply counts as committed, and the book keeps what the entries that touched it did |
| MatcherLoops.RecoverBook | internal/application/matcherapp/book_recovery.go:20-32 | rebuilds the live structure that stands for inserting the listed LIMIT orders in turn |
| MatcherLoops.MatcherLoop.ProcessMessages | internal/application/matcherapp/consumer_loop.go:107-130 | an entry is acknowledged only after its batch is committed; a failed apply sets the dirty flag and acknowledges nothing; an acknowledgement may fail, or succeed with its reply lost |
| MatcherLoops.MatcherLoop.ReclaimPending | internal/application/matcherapp/consumer_loop.go:75-105 | ends for every behaviour of stream and database, with the result the value model of the drain gives |
| MatcherLoops.MatcherLoop.ResyncBook | internal/application/matcherapp/consumer_loop.go:132-147 | replaces the book by the rebuilt one and nothing else |
| MatcherLoops.MatcherLoop.RecoverAfterFailure | internal/application/matcherapp/consumer_loop.go:172-200 | a dirty book is rebuilt before the drain; only a stop request is reported |
| MatcherLoops.MatcherLoop.RunTurn | internal/application/matcherapp/consumer_loop.go:153-170 | one turn of the main loop is the value model's turn, with a read that fails before or after it has made entries pending |
| MatcherLoops.MatcherLoop.Run | internal/application/matcherapp/consumer_loop.go:149-170 | the drain at boot and then any number of turns, until one is told to stop, are the value model's |
| ConsumerLoop.ReclaimIsOnePass | internal/application/matcherapp/consumer_loop.go:75-105 | a drain that reports success has emptied the list and done what its entries do when passed over once, with the requests committed in between and nothing else; one that fails has done so for a first part of it, at least the acknowledged part |
| ConsumerLoop.QuietPassIsOneBatch | internal/application/matcherapp/consumer_loop.go:75-105 | when nobody else is at work, that is one batch of the whole list |
| ConsumerLoop.SmoothReclaimSucceeds | internal/application/matcherapp/consumer_loop.go:75-105 | without outside failures and with entries that apply, the drain succeeds |
| ConsumerLoop.RepeatsPass | internal/application/matcherapp/consumer_loop.go:242-250 | entries already processed pass through without effect |
| ConsumerLoop.BatchConcat | internal/application/matcherapp/consumer_loop.go:242-262 | splitting a batch into two in a row makes no difference |
| ConsumerLoop.RecoveryOutcome | internal/application/matcherapp/consumer_loop.go:172-200 | a recovery that goes on is the drain of a rebuilt or clean book, in the sense above, and if that drain reports no error the list is empty and the book clean |
| ConsumerLoop.CalmTurnApplies | internal/application/matcherapp/consumer_loop.go:149-170 | a turn in which nothing fails applies what it has read, acknowledges it, and leaves pending what was pending before |
| ConsumerLoop.TroubledTurnRecovers | internal/application/matcherapp/consumer_loop.go:163-200 | a turn whose read or batch fails, and whose recovery is not stopped and drains without an error, ends with nothing pending and a clean book |
| ConsumerLoop.BootDrains | internal/application/matcherapp/consumer_loop.go:149-156 | the loop drains before its first turn: if that goes through, nothing is pending |
| LoopRuns.TurnIsRun | internal/application/matcherapp/consumer_loop.go:149-200 | every turn of the loop, failures included, with placements, cancel requests and publications, marked or not, between its transactions, is a run of the exchange's state machine; a turn that starts on a clean book and does not rebuild too early is a disciplined one, as long as no NEW_ORDER has come into the stream twice |
| LoopRuns.LoopIsRun | internal/application/matcherapp/consumer_loop.go:149-200 | so is the whole life of the loop, from the drain at boot through any number of turns |
| LoopRuns.LoopStaysSafe | internal/application/matcherapp/consumer_loop.go:149-200 | whatever the loop goes through from any reachable state leaves a safe state |
| LoopRuns.CarefulLoopStaysClean | internal/application/matcherapp/consumer_loop.go:132-200 | a loop all of whose turns are careful stays within the disciplined runs, with everything that holds in them, as long as the relay has put no NEW_ORDER into the stream twice |
| Safety.EveryRunIsSafe | internal/application/matcherapp/consumer_loop.go:107-271 | in every run of placements, cancels, duplicate publications, deliveries, aborts, lost replies, lost acks, rebuilds and crashes: totals of BRL and Vibranium constant, no field negative, each entry applied at most once, acknowledged entries processed, delivered entries processed or pending |
| Safety.NoEntryIsLost | internal/infra/postgres/processed_events_repo.go:18-35 | a delivered entry is processed or still pending, in every run |
| CleanRuns.CleanRunsStayClean | internal/application/matcherapp/consumer_loop.go:202-467 | in every run that appends each NEW_ORDER to the stream at most once, commits no batch on a book that disagrees with the tables and rebuilds only when every open LIMIT order has been seen, tables are sound and a clean book is exactly the live rows seen; cancel requests may be republished and marks lost |
| Guarantees.ReservationsAreExact | internal/application/orders/place_order_service.go:157-170 | in those runs reserved BRL is the sum of limit price times remaining over live BUY LIMIT orders and reserved Vibranium the sum of remaining over live SELLs, for every user |
| Guarantees.BookIsDerivedView | internal/application/matcherapp/consumer_loop.go:132-147 | in those runs the book holds for each id exactly the row of the table, if that is a live LIMIT order the matcher has seen, and bids are below asks |
| Guarantees.SeenMeansProcessed | internal/infra/postgres/processed_events_repo.go:18-35 | an order has been seen exactly when its NEW_ORDER entry is processed |
| Guarantees.FillsAreAccounted | scripts/validate-post-test.sh:83-122 | filled quantity is the sum of the recorded trades, within the order's quantity, and FILLED means full |
| Guarantees.FinishedForever | internal/domain/order/order.go:58-89 | a FILLED or CANCELLED row never changes again |
| Guarantees.LaterCancelsDoNothing | internal/application/orders/cancel_order_service.go:80-98 | once an order is finished, any cancel event for it does nothing, however many are queued and under however many entry ids each of them is in the stream, so its remainder is released once |
| Guarantees.MatcherFailsOnlyWhenPoisoned | internal/application/matcherapp/consumer_loop.go:273-467 | with a book that agrees with the tables, applying an entry fails if and only if it is the unprocessed NEW_ORDER of a BUY MARKET with available funds at or below minus the best ask |
| Guarantees.BatchFailsIff | internal/application/matcherapp/consumer_loop.go:242-262 | and a batch fails if and only if one of its entries is of that kind when its turn comes |
| Guarantees.AbortAgreesIff | internal/application/matcherapp/consumer_loop.go:113-147 | when the dirty flag is raised for nothing: after a batch that was rolled back the book still agrees with the tables if and only if the entries that had gone through when it ended would have left the live LIMIT rows as they are |
| Refusals.SettleAllIff | internal/application/matcherapp/consumer_loop.go:349-404 | the trades of a match settle if and only if no user's sales exceed the units that user has reserved and no buyer's payments, at the limit of an incoming BUY and at its own price for a resting one, exceed the money that buyer has reserved; the order of the trades does not matter |
| Refusals.NewRefusedIff | internal/application/matcherapp/consumer_loop.go:309-429 | on every book of known orders, dirty or doubled, a NEW_ORDER fails if and only if it is a BUY MARKET with funds at or below minus the best ask, or its trades and its cancelled remainder take more from some user than is reserved |
| Refusals.BatchRefusedIff | internal/application/matcherapp/consumer_loop.go:242-262 | on every such book a batch fails if and only if one of its entries takes, at its turn, what is not there |
| Refusals.RunRefusesIff | internal/application/matcherapp/consumer_loop.go:273-467 | so in every run whatsoever an entry fails if and only if it is of that kind, or is a cancel whose refund is nothing or more than is reserved |
| Int64.EntryFitsIff | internal/application/matcherapp/consumer_loop.go:309-467 | on every book of known orders, with int64 terms and totals: everything an entry computes, whether it succeeds or fails, fits an int64 if and only if the buyer's units and the quantity do for every trade whose predecessors settle and whose cost the buyer can pay |
| Int64.BatchFitsIff | internal/application/matcherapp/consumer_loop.go:202-271 | the same for every entry that a batch reaches |
| Int64Runs.PlacementNeverOverflows | internal/application/orders/place_order_service.go:59-87 | if the initial totals fit an int64, nothing an accepted placement computes overflows, in any run |
| Int64Runs.MatcherNeverOverflows | internal/application/matcherapp/consumer_loop.go:309-467 | in disciplined runs nothing that matching, settling, refunding an improvement, releasing a remainder or cancelling computes overflows, for every entry that a batch reaches on a book that agrees with the tables, the failing one included |
| Int64Runs.CommittedNeverOverflows | internal/application/matcherapp/consumer_loop.go:202-467 | in every run whatsoever, duplicated orders and dirty books included, the same holds of every batch that commits |
| Int64Runs.EveryBatchFits | internal/application/matcherapp/consumer_loop.go:202-467 | and of every batch that is tried, if twice the units there are fit |
| Int64Runs.TwiceTheUnitsIff | internal/domain/wallet/wallet.go:88-131 | that bound is exact: with int64 money and int64 units, every batch of every run fits if and only if twice the units do |
| Int64Runs.SoldToOneself | internal/application/matcherapp/consumer_loop.go:349-399 | the run behind it: a user's SELL of all its units is published twice and bought by the same user twice, and the second credit, which comes before the seller's reservation is found empty, fits if and only if twice the units do |
| Recovery.RecoveredContents | internal/application/matcherapp/book_recovery.go:20-32 | a rebuilt book holds exactly the table's live LIMIT rows |
| CleanRuns.RebuildAgreesIff | internal/application/matcherapp/book_recovery.go:26-30 | a rebuilt book agrees with the tables if and only if every open LIMIT row's NEW_ORDER has been processed |
| RoundTrip.RebuildIsExactIff | internal/infra/postgres/order_repo.go:104-119 | the rebuilt queues equal the live ones, level by level and in FIFO order, if and only if the listing has the orders of each price in the order in which they queue |
| RoundTrip.RebuildGivesTheBookBack | internal/application/matcherapp/book_recovery.go:20-32 | in every disciplined run with all open LIMIT orders seen and creation times following arrival at each price, a rebuild gives the live queues back |
| Transparency.SameMatch | internal/domain/matching/engine.go:39-112 | two books that differ in the insertion numbers of their elements only, whatever has happened to them, match every order alike, with the same trades, makers, funds and remainder, and differ in their numbers only again |
| Transparency.SameBatch | internal/application/matcherapp/consumer_loop.go:242-262 | on any tables any batch succeeds or fails alike on two such books, with the same tables |
| Transparency.TwinRuns | internal/application/matcherapp/consumer_loop.go:113-200 | two states of the exchange with such books allow the same steps for ever and end in two such states, whatever the steps are |
| Transparency.RebuildIsInvisible | internal/application/matcherapp/consumer_loop.go:132-147 | in every disciplined run, after which every open LIMIT order has been seen and the listing follows the queues, nothing that follows can tell a rebuilt book from the live one: in every continuation, disciplined or not, the same steps are possible and the tables, the queues and the order an id stands for come out the same |
| ClockSkew.RebuildCanReorder | internal/infra/postgres/order_repo.go:104-119 | a disciplined run after which creation times do not follow arrival and a rebuild has two orders of one price the other way round |
| Boundaries.ReservingCountsTwice | internal/domain/wallet/wallet.go:27-55 | a reservation, of BRL or Vibranium, lowers the available amount twice; it stays non-negative exactly when twice the amount was available |
| Boundaries.TradesArePositiveIff | internal/domain/matching/engine.go:61-90 | every trade of a match has positive quantity if and only if the taker is not a BUY MARKET with funds at or below minus the best ask |
| Boundaries.NegativeTrade | internal/domain/matching/engine.go:65-85 | a wallet of 100 with 90 reserved has -80 available, and on every book with its best ask at 10 a market order for one unit then makes exactly one trade of minus eight units |
| DoubledOrders.RestsOnceIff | internal/domain/matching/book.go:113-124 | resting an order keeps each id at one place if and only if its id is not on the book |
| DoubledOrders.RebuildThenReprocess | internal/application/matcherapp/book_recovery.go:26-30 | a row whose NEW_ORDER is still to come is rebuilt onto the book; whoever is on the other side, what its entry leaves unfilled then rests a second time, and if nothing is left the first copy stays as if nothing had been sold |
| DoubledOrders.DuplicateEntryAppliesTwice | internal/application/outboxapp/publisher_loop.go:163-169 | a LIMIT order published under two entry ids, whoever is on the other side: if the first copy has come to rest, the second applies, trades with nobody, rests beside it and resets the filled quantity of the row; the order is on the book twice if and only if the first copy rests |
| DoubledOrders.DoubledOrderBlocks | internal/domain/matching/book.go:126-140 | the taker that uses up the first copy takes the other one off the book and ends there: the first stays at the front with nothing left |
| DoubledOrders.DeadFrontBlocks | internal/domain/matching/engine.go:59-76 | nobody gets past such a front: every later match there has no trades and leaves it in place, but for a BUY MARKET with funds at or below minus its price |
| DoubledOrders.RestingAgainDoubles | internal/domain/matching/book.go:113-124 | a second copy always comes behind the first, and the recorded location is the second's |
| DirtyRecovery.RecoveryLeavesDirtyIff | internal/application/matcherapp/consumer_loop.go:172-200 | in every run whatsoever, rebuilds that come too early included, recovery lets the loop go on with a dirty book if and only if in a round of its drain that is reached the connection fails, the COMMIT is not confirmed, or a pending entry takes at its turn what is not there, in the sense of `Refusals` |
| DirtyRecovery.GoesOnDirtyIff | internal/application/matcherapp/consumer_loop.go:195-199 | in disciplined runs whose rebuild is not too early, the only such entry is a BUY MARKET with funds at or below minus the best ask, whatever the relay appends meanwhile |
| DirtyRecovery.UnprocessedLimitMakesRebuildEarly | internal/application/matcherapp/consumer_loop.go:180-194 | while the NEW_ORDER of a LIMIT order is unprocessed on the stream, any rebuild is too early; a failed batch with such an entry is the usual case |
| StuckLists.StuckForeverIff | internal/application/matcherapp/consumer_loop.go:149-200 | in every run: as long as nothing new comes in, no number of turns, whatever fails in them, takes anything off the pending list if and only if on every book that a rebuild can give an entry of the first batch takes at its turn what is not there, in the sense of `Refusals` |
| DirtyRuns.GoesOnDirty | internal/application/matcherapp/consumer_loop.go:153-200 | at the end of a disciplined run: the drain's COMMIT of a SELL is refused, recovery goes on with the SELL on its book, and the next turn commits a trade with it while its entry is still pending |
| StuckLists.GetsStuck | internal/application/matcherapp/consumer_loop.go:107-130 | a disciplined run after which the book is dirty and two entries of LIMIT orders that cross are pending, neither processed |
| StuckLists.CrossingOrdersStick | internal/application/matcherapp/consumer_loop.go:149-200 | from there, as long as nothing new comes in and whatever fails or does not, no number of turns takes anything off the pending list if and only if both entries are read in one batch: the rebuilt book has both orders, the SELL takes the bid, and the BUY meets the copy of the SELL with its reservation used up |
| Reopening.StepLeaves | internal/domain/order/order.go:58-89 | in any state whatsoever a row, finished or not, is changed only by a committed batch with an entry that is the unprocessed NEW_ORDER of that order or finds the order on the book when its turn comes |
| Reopening.ReappliedKeepsRowIff | internal/application/matcherapp/consumer_loop.go:406-428 | the NEW_ORDER of a finished order leaves its row as it is if and only if the order comes to its end once more with the same quantity filled; a LIMIT order does so only if it was filled and is filled again |
| Reopening.FinishedOrderReopens | internal/application/matcherapp/consumer_loop.go:172-200 | at the end of a disciplined run, two turns of the loop with a batch size of one: an early rebuild fills a BUY whose entry is still to come, the next rebuild finds nobody, and the entry sets the FILLED row back to OPEN with nothing filled and nothing reserved |
| Outbox.EveryCopyIsAccounted | internal/application/outboxapp/publisher_loop.go:68-170 | for any number of publishers and failures anywhere: copies of a row in the stream are one for its mark, one while it is being published, and one for every append whose mark was lost |
| Outbox.PublishedOnceUnlessStranded | internal/application/outboxapp/publisher_loop.go:127-170 | a marked row is in the stream, and it is there exactly once if and only if no mark after an append of it was lost |
| Outbox.SinglePublisherKeepsOrder | internal/infra/postgres/outbox_repo.go:34-75 | with one publisher, rows visible in id order and no lost mark, the stream is the rows in id order up to the last published one |
| Outbox.Publisher.PublishAndMarkOne | internal/application/outboxapp/publisher_loop.go:127-170 | with the other publishers and the API making any moves in between, the attempt makes exactly the machine's moves for its fate; the row is taken exactly if nobody has marked or locked it at its turn; a counted event was unpublished before and is marked and in the stream after |
| Outbox.Publisher.FetchBatch | internal/application/outboxapp/publisher_loop.go:108-125 | the first eligible rows, all locked for the time of the read and then given up |
| Outbox.Publisher.PublishOnce | internal/application/outboxapp/publisher_loop.go:68-106 | a cycle is a run of the machine together with what the others do; its batch is the first eligible rows at one moment of it; without an error every row of the batch has had its turn, in order, and the rows published are those that nobody had marked or locked then; the count is of its own marks, each of a row not published before and now in the stream; it ends at the first failure. With nobody else at work and no failure the first eligible rows, up to the limit, are all appended in id order and marked, and nothing else changes |
| Publishing.PipelineIsRun | internal/application/outboxapp/publisher_loop.go:68-170 | any number of publishers, each lock, append and mark a step of its own and failures anywhere, with the API and the matcher at work in between, are a run of the exchange in which each append is a publication, with its mark if the publisher goes on to make it |
| Publishing.PipelineStaysSafe | internal/application/outboxapp/publisher_loop.go:127-170 | so it is safe in every run |
| Publishing.SurePipelineStaysClean | internal/application/outboxapp/publisher_loop.go:127-170 | and clean as long as no NEW_ORDER is appended a second time and the rest is disciplined, with any other rows republished and any marks lost |
| Publishing.RelayIsRun | internal/application/outboxapp/publisher_loop.go:68-106 | its publishers make a run of the relay machine, so all that `Outbox` says of the stream holds there |
| RowLocks.EveryRunIsSerial | internal/infra/postgres/wallet_repo.go:43-58 | with row locks held from read to commit, any interleaving of transactions leaves the table that the committed ones, one after the other in commit order, would have left |
| RowLocks.ReadsAreSerial | internal/infra/postgres/wallet_repo.go:43-82 | and each transaction has read what it would have read running alone in that order |
| SerialTransactions.BatchLocal | internal/application/matcherapp/consumer_loop.go:223-268 | a batch reads and changes no wallet but those it locks: on tables that agree on those it makes the same changes, succeeds or fails alike and leaves the same rows and book |
| Interleavings.BatchBeside | internal/application/matcherapp/consumer_loop.go:202-271 | orders placed meanwhile make no difference to it |
| Interleavings.InterleavingIsRun | internal/infra/postgres/wallet_repo.go:43-82 | placements and batches as transactions that lock the wallets they come to, work on their own copies, see what is committed to the orders table meanwhile and interleave in any way, with a rollback or a lost reply anywhere, are a run of the exchange, each one step at its commit or rollback |
| Interleavings.InterleavingStaysSafe | internal/application/orders/place_order_service.go:129-198 | so whatever is committed under these locks is safe |
| Pagination.ListPaginated | internal/infra/postgres/trade_repo.go:60-124 | conditions, one extra row, trade objects and cursor: a page is the first part of what remains after the cursor, with a next cursor exactly when more remains; it has at most the limit, or 50 for a limit outside 1 to 200, all of the user and the order asked for, newest first; a bad cursor or row is an error |
| Pagination.ArrangeSorts | internal/infra/postgres/trade_repo.go:96-97 | the listing has each row of the table once, in descending order of time and id |
| Pagination.NextCursorContinues | internal/infra/postgres/trade_repo.go:80-123 | the next cursor leads to exactly what the page left over |
| Pagination.PaginationIsComplete | internal/infra/postgres/trade_repo.go:57-124 | for every filter and limit, following the cursors ends, and the pages together are the trades in which the user bought or sold and which the order was part of, as far as these are named, each once, later before earlier and larger ids first; only a row that is no trade can stop it |

## Left out

- Guarantees.BookIsDerivedView: assumes a disciplined run, because outside it the statement is false; `DoubledOrders`, `DirtyRuns` and `Reopening` have the failing cases, and `CleanRuns.RebuildAgreesIff` the exact condition for a rebuild.
- MatcherLoops.MatcherLoop.Run: any finite number of turns of the endless loop; sleeps are not modelled, and a stop request is the `patience` and `cancelled` of its parameters.
- LoopRuns.LoopIsRun: requests of the API that overlap a batch are placed before it or after it; that such an order exists is `Interleavings.InterleavingIsRun`.
- Interleavings.InterleavingIsRun: an entry of a batch is applied once all wallets it needs are locked, a deadlock is a rollback, and the batch sees committed order rows at once (read committed).
- StuckLists.CrossingOrdersStick: for two orders of equal price and quantity and nobody else in the tables; which pending lists are stuck in general is `StuckLists.StuckForeverIff`.
- Malformed NEW_ORDER payloads that still decode, such as a LIMIT order without a price: the services never write one, and the stream is taken to hold only what they wrote or entries that do not decode.
- HTTP handlers, routing, middleware, request validation tags, user and wallet queries: they would only add easy members.
- Tracing, logging, configuration, clients and `main` functions: nothing to state.
- JSON of stream events and the text form of cursors: encoders of libraries, taken as round-trip pairs.
- The SQL text and Redis commands themselves: modelled as tables with row locks, an append-only stream and a pending list.
- Progress under fair scheduling (every placed order is eventually matched): the model states safety and the termination of each operation, not liveness of the whole.
