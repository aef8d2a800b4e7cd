# Exchange back end: a verified model

A Dafny model of the parts of the exchange whose correctness is argued in comments and
design notes: the matching engine and its turn scheduler, the double-entry ledger with
holds and settlement, the settlement dispatcher, the durable cancel protocol, transfers
in and out, and the way of an event from engine shard to settlement queue. Each part is
modelled on its own and proved over every run; the parts are then joined: what the book
emits is what settlement can take in any order.

Conventions:

- A database transaction is one atomic step on the tables it touches. Row ids are
  positions plus one; an account is identified by kind, owner and asset.
- Decimals are `real`: addition, subtraction and multiplication are exact. The two
  divisions (down to sixteen digits, and rounded to sixteen digits) are written out.
- Services are classes whose fields are the tables they update; every method is tied to
  a function on the old state, and the properties are proved about those functions.
- Other goroutines are adversaries. In the engine class `Interleave` stands between any
  two channel operations: the consumer may take events, producers may submit until the
  engine is stopped. Elsewhere concurrency is a step relation.

Modules, from the bottom up:

| files | content |
|---|---|
| `Prelude`, `Fees` | shared types, sums, decimal division, fee policy |
| `Ledger`, `LedgerService` | journals, balances, idempotent recording, reversal |
| `Settlement`, `SettlementEffects`, `SettlementBatch`, `SettlementService` | one trade, and a batch in one transaction |
| `Orders`, `OrderService`, `Holds`, `HoldCoordinator` | placing, cancelling, completing, rejecting; group holds |
| `Transfers`, `TransferService` | deposits and withdrawals |
| `Reservation`, `Progress`, `SettlementOrder` | what every run of all of these keeps |
| `OrderBooks`, `Matching`, `BookRuns`, `BookTrades` | book, matching, slicing, and what the trades of a book add up to |
| `EngineLog`, `Engine`, `Snapshots` | the scheduler and what it has done, snapshot cache |
| `EngineTrades`, `EngineSettlement` | from the books and the scheduler to settlement |
| `Dispatcher`, `DispatcherProofs`, `DispatcherService` | the settlement dispatcher |
| `CancelProtocol`, `CancelService` | the cancel protocol |
| `EventFlow`, `EventFlowService` | sharding, outbox writer, routing |

Findings, where the code and a plausible promise differ:

- The executable quote of a market buy is rounded, not cut off, so a buy that spends all
  of it can exceed its budget with fees by less than one unit of the last digit. On a
  budget of n such units this happens exactly when n modulo 2001 is between 1 and 1000
  (`Fees.FullSpendFitsBudget`; 10000 is such a budget, `Fees.FullSpendCanExceedBudget`).
  What follows depends on what else the buyer has locked in KRW. With nothing else locked
  the trade that spends the rest is refused when it is settled, because the locked balance
  would go negative, and neither side of it is ever booked (`Progress.LastTradeSettles`). With
  enough locked for other orders it settles at their expense
  (`Progress.MarketTradeSettles`), and then the order cannot be completed: completion of a
  market buy succeeds exactly when its filled quote with fees is within its budget,
  whatever was filled (`Progress.CompletionSucceeds`).
- Completing a market order does not look for status REJECTED. For a rejected order it
  would release the hold a second time; locked money stays equal to what is reserved
  exactly when the order had not been rejected (`Progress.CompletionNeedsUnrejected`;
  `Progress.CompletingRejectedBreaks` is a run in which one user's other order pays for it).
  The engine as it stands does not send that completion: an order is rejected only when it
  could not be handed to the engine, and the engine reports only orders it admitted. The
  check is missing, not the invariant broken.
- A dispatcher pass that drops a quarantined terminal goes on to its select even when
  another terminal is ready; with the queue at its end and nothing in flight it then waits
  for ever (`DispatcherProofs.DroppingCanStrand`). This is the only way to get stuck
  (`DispatcherProofs.StuckOnlyAfterDrop`).
- A committed hold batch creates balance rows at zero for owners it refuses, which the
  one-by-one path does not; the balances are the same.

## Model

| member | source | states |
|---|---|---|
| Ledger.ValidJournalBalances | internal/service/ledger_service.go:380-418 | A journal that passes validation sums to zero in every asset, named in it or not |
| Ledger.ValidJournalMeans | internal/service/ledger_service.go:380-418 | Validation accepts exactly the journals with two postings or more, each with an asset, an amount and an owner if and only if the account is a user's, an event of kind reversal if and only if something is reversed, and a zero sum in every asset there is |
| Ledger.RecordNewMoves | internal/service/ledger_service.go:82-198 | A newly recorded journal moves every balance by exactly its postings on that account |
| Ledger.NewJournalIsDecided | internal/service/ledger_service.go:82-198 | A journal under a new key is refused if and only if it takes back what cannot be taken back or would put an account that must not be negative below zero; otherwise it is filed and every balance moves by its postings |
| Ledger.RecordKeepsSound | internal/service/ledger_service.go:82-198 | Recording keeps the books sound: journals balanced, cache equal to the sum of postings, only external and mint accounts negative, keys unique |
| Ledger.RunKeepsSound | internal/service/ledger_service.go:82-378 | Every sequence of record and reverse calls keeps the books sound |
| Ledger.LedgerConservesMoney | internal/service/ledger_service.go:82-378 | After any such sequence all postings of an asset sum to zero and the cache of every account is the sum of its postings, and only external and mint accounts are negative |
| Ledger.ReplayIsDecidedByContent | internal/service/ledger_service.go:231-304 | After any later calls a key answers as it did: with the same event, reference and reversed journal and every posting the same number of times it succeeds with the first journal's id, otherwise it is refused, and nothing changes, whatever the balances |
| Ledger.KnownKeyIsAnswered | internal/service/ledger_service.go:231-304 | The same for one call: a key on file is answered by comparing contents alone |
| Ledger.ReversalCancelsExactlyOnce | internal/service/ledger_service.go:318-378 | The first reversal takes the original back on every account; later ones and later replays change nothing |
| Ledger.ReversalIsDecided | internal/service/ledger_service.go:318-378 | The first reversal of a journal of sound books succeeds if and only if no guarded account would fall below zero, and then takes the original back on every account |
| Ledger.ReversalIsValid | internal/service/ledger_service.go:318-378 | The mirror image of a sound journal passes validation |
| LedgerServices.ValidateJournal | internal/service/ledger_service.go:380-418 | The loop accepts exactly the journals with postings on known accounts, no zero amount and a zero sum per asset |
| LedgerServices.LedgerService.EnsureAccounts | internal/service/ledger_service.go:114-129 | Provisions the missing accounts at zero, so no balance changes |
| LedgerServices.LedgerService.FoldDeltas | internal/service/ledger_service.go:131-147 | The delta map holds, per touched account, the sum of its postings and nothing else |
| LedgerServices.LedgerService.AnyNegative | internal/service/ledger_service.go:161-171 | Reports exactly whether a guarded account would fall below zero |
| LedgerServices.LedgerService.ApplyDeltas | internal/service/ledger_service.go:177-195 | Every cached balance moves by its delta and no other does |
| LedgerServices.LedgerService.Record | internal/service/ledger_service.go:82-198 | In place: an invalid journal and any error change nothing; a key on file is answered by its content and changes nothing; a journal under a new key is filed, with every balance moved by its postings, if and only if it takes back nothing twice and overdraws no guarded account |
| LedgerServices.LedgerService.Reverse | internal/service/ledger_service.go:318-378 | In place: an unknown journal is not found; the first reversal takes the original back on every account, if and only if no guarded account would fall below zero |
| Fees.QuoFloor | internal/matching/engine.go:986-990 | Division down to sixteen digits: quotient times divisor never exceeds the dividend and misses it by less than one last digit of the divisor |
| Fees.DivRoundIsNearest | internal/service/order_ledger.go:266 | The rounded quotient times the divisor is off by half a unit of the last digit of the divisor at most |
| Fees.ExecutableQuoteNearBudget | internal/service/fee.go:44-57 | The executable quote with fee is within (1+r)/2 units of the last digit of the budget |
| Fees.ExecutableQuoteBelowBudget | internal/service/fee.go:44-57 | When the executable quote lies below the budget, as an exact condition on the budget |
| Fees.FullSpendFitsBudget | internal/service/fee.go:44-57 | On a budget of n units of the last digit, spending all of the executable quote with fees fits the budget if and only if n modulo 2001 is 0 or at least 1001 |
| Fees.FullSpendCanExceedBudget | internal/service/fee.go:44-57 | A budget for which spending all of it does not fit |
| SettlementBatch.PlanIgnoresFills | internal/service/order_ledger.go:193-208 | The postings of a trade depend on prices, users and fees, not on how far its orders are filled |
| SettlementBatch.CopiesFollowStore | internal/service/settlement_batch.go:173-227 | The batch's shared order copies are, after every item, the rows a one-by-one settlement would have |
| SettlementBatch.SameBooksRecord | internal/service/ledger_service.go:82-198 | Recording does not see zero-balance rows |
| SettlementServices.PrepareAll | internal/service/settlement_batch.go:34-44 | Fails exactly when some trade of the batch is malformed, else fills in the fees of all |
| SettlementServices.SplitDuplicates | internal/service/settlement_batch.go:51-75 | Finds the row of every trade already on file, and fails exactly when a payload disagrees with its row |
| SettlementServices.InsertNew | internal/service/settlement_batch.go:80-95 | Appends the new trades in order, and fails exactly when two of them share a key |
| SettlementServices.LockOrders | internal/service/settlement_batch.go:98-111 | Copies the rows of the orders the new trades name, and fails exactly when one is missing |
| SettlementServices.PlanAll | internal/service/settlement_batch.go:114-154 | Plans each new trade from the orders as locked, fails exactly when the terms of one do not agree, and collects the accounts of all their postings |
| SettlementServices.PrelockIsExact | internal/service/order_ledger.go:213-223 | The accounts locked ahead are exactly the accounts the later recordings touch |
| SettlementServices.SettleInOrder | internal/service/settlement_batch.go:173-227 | Works through the batch on shared order copies with the fold's results, errors and ledger |
| SettlementServices.WriteOrders | internal/service/settlement_batch.go:230-242 | Writes each touched copy back to its row and no other row |
| SettlementServices.CollectOutboxIds | internal/service/settlement_batch.go:295-306 | The distinct non-zero outbox ids of the batch |
| SettlementServices.MarkRows | internal/service/settlement_batch.go:261-278 | Marks exactly those rows and fails if one does not exist |
| SettlementEffects.ApplyExchanges | internal/service/order_ledger.go:139-208 | A trade that settles is between an open buy and an open sell of its symbol and of two different users; it takes from the buyer's locked money no more than was reserved for it, refunds the rest, moves the coins, pays the seller the quote less the fee, books both fees, and moves no other account; both orders advance by it, no other row changes, and the averages move as the next row says |
| SettlementEffects.ApplyAverages | internal/service/order_ledger.go:233-290 | The buyer's average price values what they now hold at what it cost them, to half a unit of the last digit; a seller with nothing left has none; no other average moves |
| SettlementEffects.KnownTradeIsAnswered | internal/service/settlement_service.go:60-90 | A trade whose key is on file is a duplicate of that row if all its terms agree and a conflict if any does not |
| SettlementEffects.SettleMarks | internal/service/settlement_service.go:47-164 | A trade is applied if and only if its key is new, otherwise it is a duplicate; the item's outbox row is marked and no other; trade keys stay unique |
| SettlementEffects.SettledOnce | internal/service/settlement_service.go:60-90 | A settled item settled again is a duplicate of the same row and changes nothing at all |
| SettlementServices.SettlementService.SettleTrade | internal/service/settlement_service.go:47-164 | One trade in one transaction: a malformed trade is refused; the effects, the answer to a known key, the outbox mark and the idempotence of the five rows above, books sound, locked still exactly what is reserved; an error changes nothing |
| SettlementServices.SettlementService.SettleTradeBatch | internal/service/settlement_batch.go:30-257 | Commits exactly when folding single settlements succeeds with distinct new keys and existing outbox rows; trades, orders, journals, balances and marks then equal the fold's; on error nothing changes |
| OrderServices.OrderService.ReleaseAndUpdate | internal/service/order_ledger.go:41-72 | From an open order exactly the amount moves from locked to available and the order closes, no other account or row changes; it succeeds if and only if the amount is positive and locked |
| OrderServices.OrderService.ProcessOrderCancellation | internal/service/order_service.go:502-535 | An open order with quantity left is closed and exactly what it reserved is available again, anything else is left alone, locked stays exactly what is reserved, and it cannot fail unless another of the user's orders on the asset overspent |
| OrderServices.OrderService.SumBuyerFees | internal/service/order_service.go:572-576 | The loop adds up the buyer fees of one order |
| OrderServices.OrderService.CompleteMarketOrder | internal/service/order_service.go:537-608 | An open market order is closed and exactly what it reserved is available again; succeeds if and only if the engine's fills have arrived and a buy is within its budget with fees; a market order that is FILLED or CANCELLED already is accepted and nothing changes; an unknown order and a limit order are refused; keeps locked equal to reserved unless the order was rejected |
| Orders.CompletionIsFinal | internal/service/order_service.go:550-556 | After a completion that succeeded every other completion of that order, whatever it says, succeeds and changes nothing |
| OrderServices.OrderService.RejectAcceptedOrder | internal/service/order_service.go:343-408 | An order nothing has happened to is closed and its whole hold is available again, locked stays exactly what is reserved, and it cannot fail unless another of the user's orders on the asset overspent |
| Reservation.PlaceKeepsInv | internal/service/order_ledger.go:18-39 | Placing locks exactly what the order reserves |
| Reservation.SettleKeepsInv | internal/service/settlement_service.go:91-161 | Settling takes from each locked balance exactly what the two orders stop reserving |
| Reservation.CancelKeepsInv | internal/service/order_service.go:502-535 | A cancelled order reserves nothing and its whole rest is unlocked |
| Reservation.CompleteKeepsInv | internal/service/order_service.go:537-608 | A completed market order reserves nothing and its rest is unlocked |
| Reservation.RejectKeepsInv | internal/service/order_service.go:343-408 | A rejected order reserves nothing and its hold is unlocked |
| Reservation.TransferKeepsInv | internal/service/transfer_service.go:142-161 | Requests, dispatches, callbacks and polls keep locked money equal to what is reserved |
| Reservation.LockedIsExactlyReserved | internal/service/order_ledger.go:18-208 | Over every run of hold, settle, cancel, complete, reject, transfer and funding steps, each locked balance is exactly what open orders still reserve plus unresolved withdrawals; FILLED, CANCELLED and REJECTED orders reserve nothing |
| Progress.StepKeepsSound | internal/service/ledger_service.go:82-198 | Every step of the exchange keeps the books sound |
| Progress.ReservationSign | internal/service/order_service.go:572-592 | An order's reservation is negative if and only if it is an open market buy that overspent, and positive for every other open order |
| Progress.CancellationSucceeds | internal/service/order_service.go:502-535 | Cancelling never fails for lack of money unless another order of the same user on the same asset overspent; what it returns is what the order reserved |
| Progress.RejectionSucceeds | internal/service/order_service.go:343-408 | The same for rejecting an order the engine never saw |
| Progress.CompletionNeedsUnrejected | internal/service/order_service.go:537-608 | Completing a market order that has something left keeps locked equal to reserved if and only if the order had not been rejected |
| Progress.CompletingRejectedBreaks | internal/service/order_service.go:537-608 | A run from the empty exchange in which a rejected market sell is completed and locked is no longer what is reserved |
| Progress.CompletionSucceeds | internal/service/order_service.go:537-608 | An open market order, sell or buy, however far filled, can be completed if and only if the engine's fills have arrived and a buy's filled quote with fees is within its budget |
| Progress.ConfirmationSucceeds | internal/service/transfer_service.go:371-388 | The final outcome of a dispatched transfer can always be booked: a withdrawal's money is locked until then |
| Progress.TradeSettles | internal/service/settlement_service.go:91-161 | Against a limit buyer, a trade within both orders' remaining quantities and the limit always settles: balanced journal, no negative account, no over-fill |
| Progress.MarketTradeSettles | internal/service/settlement_service.go:91-161 | Against a market buyer it settles if and only if the filled quote keeps within the budget, and with fees within the budget plus whatever else the buyer has locked |
| Progress.LastTradeSettles | internal/service/settlement_service.go:91-161 | With nothing else locked, the trade that spends the rest of the executable quote settles if and only if the budget in units of the last digit is 0 or at least 1001 modulo 2001 |
| SettlementOrder.EmittedTradesSettle | internal/service/settlement_service.go:91-161 | Every list of distinct emitted trades whose parties have no overspent order settles completely, and fills, statuses and balances are sums over the list |
| SettlementOrder.SettlementOrderDoesNotMatter | internal/service/settlement_service.go:91-161 | Any two orders of the same such trades both settle and end in the same fills, statuses and balances |
| Holds.LeadersAreOwners | internal/service/hold_coordinator.go:57-84 | In a group every key has one owner, the first request with it |
| Holds.RolesMean | internal/service/hold_coordinator.go:57-84 | A request without a key stands alone; the first request with a user's key leads; a later one follows it if the fingerprints agree and clashes if they do not |
| Holds.AcceptedIffAffordable | internal/service/order_ledger.go:18-39 | With a positive hold, an order is accepted if and only if the available balance covers it; then the order is the next row, one journal is added, the hold moves from available to locked and no other balance moves |
| HoldCoordinators.HoldsFitStartingBalance | internal/service/hold_coordinator.go:204-236 | What a group accepts out of an account never exceeds the balance it started with |
| HoldCoordinators.FailedOwnersLeaveNoKey | internal/service/hold_coordinator.go:238-248 | An owner's key is on file afterwards exactly when its order was made |
| HoldCoordinators.GroupIdempotentRequests | internal/service/hold_coordinator.go:57-84 | The loop gives every request exactly that role |
| HoldCoordinators.ClaimKeys | internal/service/hold_coordinator.go:329-396 | Claims a key for every owner that has none on file |
| HoldCoordinators.CheckBalances | internal/service/hold_coordinator.go:204-236 | Deciding against a running copy of the balances gives every owner the decision of the one-by-one run |
| HoldCoordinators.DropRefused | internal/service/hold_coordinator.go:238-248 | Takes back exactly the keys of refused owners |
| HoldCoordinators.InsertOrders | internal/service/hold_coordinator.go:254-261 | Accepted orders get the rows and ids of the one-by-one run |
| HoldCoordinators.RecordHolds | internal/service/hold_coordinator.go:262-269 | Records one hold per accepted order, with the balances of the one-by-one run, and fails exactly when a hold is not positive |
| HoldCoordinators.LinkKeys | internal/service/hold_coordinator.go:271-284 | Links accepted owners' keys to their orders |
| HoldCoordinators.CollectResults | internal/service/hold_coordinator.go:286-323 | Every request learns what the one-by-one run would have told it |
| HoldCoordinators.HoldCoordinator.HoldBatch | internal/service/hold_coordinator.go:118-306 | A committed batch makes the same decision for every request and reaches the same keys, orders and balances as the fallback from the same start, and these are the ones `OneByOneDecides` describes; an error changes nothing; positive holds always commit |
| HoldCoordinators.HoldCoordinator.FallbackPerRequest | internal/service/hold_coordinator.go:504-589 | One transaction per owner in arrival order, with the outcome `OneByOneDecides` describes |
| HoldCoordinators.OneByOneDecides | internal/service/hold_coordinator.go:504-589 | The outcome of a group told from the requests and the start alone: an owner's order is made if and only if its hold is positive and what earlier owners left available covers it; a key on file answers for itself, a follower gets its leader's answer, a clash is refused; orders, keys, journals and balances are those of the orders made and nothing else |
| Transfers.BackoffInterval | internal/service/transfer_service.go:486-502 | Ten seconds doubled per attempt, never more than an hour |
| Transfers.RequestEffectIsFixedByStatus | internal/service/transfer_service.go:236-476 | Under any interleaving of dispatches, callbacks, polls, duplicates and failures, what a request has done to each account is a fixed function of its direction and status |
| Transfers.StatusOnlyMovesForward | internal/repository/transfer_repository.go:102-168 | A status only moves RECEIVED, PROCESSING, terminal; a terminal status and its journal never change |
| Transfers.TerminalOutcomeMovesMoneyOnce | internal/service/transfer_service.go:236-303 | On a terminal request the same outcome changes no row, the opposite one flags that row and no other, a known event key does neither; no outcome moves money |
| Transfers.OutcomesAfterTheFirst | internal/service/transfer_service.go:236-303 | Any run of outcomes for a terminal request leaves the ledger alone, and the row is flagged if and only if a new fact said the opposite |
| Transfers.ConfirmableWhenLocked | internal/service/transfer_service.go:371-388 | A dispatched request can be confirmed if and only if a withdrawal's amount and fee are locked |
| Transfers.OutcomeIsDecided | internal/service/transfer_service.go:236-303 | A new final outcome settles a request in flight as it says, with the money its status stands for, if and only if a withdrawal's money is locked; before dispatch it only flags the row |
| Transfers.UndecidedIsPutOff | internal/service/transfer_service.go:305-571 | A pending or unknown answer, a failed look and a failed dispatch count one more attempt, put the request off by the backoff and set the review reason that applies; no money moves and no other row changes |
| Transfers.InFlightIsLookedAtAgain | internal/service/transfer_service.go:371-571 | Over every run each PROCESSING request is due again within ten seconds to an hour, and no terminal one is |
| Transfers.RequestsStayApart | internal/service/transfer_service.go:103-140 | Over every run a user's client key names one row at most, and what a row asks for never changes |
| Transfers.RequestIsServedOnce | internal/service/transfer_service.go:103-140 | After any later events the same request gets the id it got first, any other request of that user under that key is refused, and neither changes anything, so its money is locked once |
| Transfers.NewRequestIsAffordable | internal/service/transfer_service.go:91-176 | A new valid request is accepted if and only if a withdrawal's money is available |
| Transfers.StepAccounted | internal/service/transfer_service.go:400-476 | Every transfer step moves the books by exactly the change of the requests' effects |
| TransferServices.TransferService.RequestTransfer | internal/service/transfer_service.go:91-176 | A malformed request is refused; a key on file answers for itself: the same request gets its id again, another one is refused, and nothing changes; a new one adds one row that asks for exactly it and moves exactly its effect, and is accepted if and only if a withdrawal's money is available; keys stay unique and the invariant of the tables is kept |
| TransferServices.TransferService.MarkDispatched | internal/repository/transfer_repository.go:102-116 | A row becomes PROCESSING under the reference, due in ten seconds, if and only if it is RECEIVED and no row has that reference; nothing else changes |
| TransferServices.TransferService.ConfirmTerminal | internal/service/transfer_service.go:371-388 | Every balance moves by the difference between the effects of the terminal and the old status, no other row changes, the invariant is kept; fails, changing nothing, if and only if a withdrawal's money is not locked |
| TransferServices.TransferService.ResolveTransfer | internal/service/transfer_service.go:236-303 | A final outcome in place, by status: in flight it settles the request if and only if a withdrawal's money is locked, before dispatch or against the settled outcome it flags the row, a known fact and any error change nothing, not even the facts |
| TransferServices.TransferService.RecordObservation | internal/service/transfer_service.go:305-354 | An outcome that decides nothing moves no money; a request in flight is put off and flagged as `UndecidedIsPutOff` says, a terminal one is left alone, one not dispatched is refused |
| OrderBooks.InsertIsPushBack | internal/matching/orderbook.go:45-76 | An added order joins the back of the queue at its price, no other queue moves, levels stay sorted, unique and non-empty |
| OrderBooks.RemoveTakesOne | internal/matching/orderbook.go:79-116 | A removal takes one order out of its queue, keeps the rest in line, drops an emptied level, and fails exactly when no such order waits |
| OrderBooks.OrderBook.AddOrder | internal/matching/orderbook.go:45-76 | In-place insertion agrees with the insertion function |
| OrderBooks.OrderBook.RemoveOrder | internal/matching/orderbook.go:79-116 | In-place removal agrees with the removal function |
| Matching.BestIsFirstInPriority | internal/matching/engine.go:1189-1277 | The counterparty is the first order within the limit, in price then arrival order, that is not the user's own; there is none exactly when all within the limit are the user's own |
| Matching.TradeIsFair | internal/matching/engine.go:904-1051 | A trade is positive, within what both parties have left, at the resting price and within the incoming limit; a market buyer's quote never goes negative |
| Matching.SpentQuoteBuysNothing | internal/matching/engine.go:986-994 | What a clamped market buy leaves buys nothing more at that price |
| Matching.TradeLowersRank | internal/matching/engine.go:904-1051 | Every trade ends a resting order or ends the sweep, so the loops end |
| Matching.SliceThenSweep | internal/matching/engine.go:829-896 | A slice is a prefix of the whole sweep and what follows it is the sweep of what it leaves |
| Matching.SlicingRefinesSweep | internal/matching/quantum_config.go:31-46 | Slices of any budget make the trades, final order and final book of the one-shot match, in exactly the expected number of slices, plus one empty slice when an order out of counterparties has traded a positive multiple of the budget |
| BookRuns.FinishKeepsBook | internal/matching/engine.go:849-858 | An order that found no more counterparties rests without crossing anyone else, at the back of the queue of its price; every other queue and the other side are unchanged, and a market or filled order leaves no trace |
| BookRuns.FinishEnds | internal/matching/engine.go:849-858 | The same for any end of a sweep: what is left of a limit order is behind all others at its price, all else as it was |
| BookRuns.SliceAccounts | internal/matching/engine.go:904-1051 | Over a slice nothing is lost: remaining plus filled is constant, and a market order's filled quote is the sum of price times quantity of its trades |
| BookRuns.BooksStayUncrossed | internal/matching/engine.go:849-972 | Over any sequence of orders, slices and cancels: levels non-empty, unique and sorted, resting amounts positive, crossing orders belong to one known user, and the sweep's order has moved exactly what its trades say |
| BookTrades.EveryTradeIsCovered | internal/matching/engine.go:904-1051 | Over any run no order trades beyond its amount, no market buy spends beyond its quote, every trade is between opposite sides, different users and within both limits, and exactly the limit orders with something left that were neither cancelled nor are being swept rest |
| BookTrades.WhatIsLeftWaits | internal/matching/engine.go:849-858 | Over any run such an order stands in the queue of its side and price with its submitted amount less all it has traded, and no other order stands anywhere on the book |
| BookTrades.EveryReportIsFinal | internal/matching/engine.go:1129-1143 | Over any run every market order whose sweep is over has been reported, and filled, filled quote and both remainders in the report account for every trade it is ever a party to |
| EngineTrades.EngineTradesAreEmitted | internal/matching/engine.go:904-1051 | The trades any number of books make for held limit buyers meet, all together, the conditions under which settlement order does not matter |
| EngineTrades.EngineTradesSettleInAnyOrder | internal/service/settlement_service.go:91-161 | Run any number of books in any way, settle those trades in any order; all settle and the order leaves no trace |
| EngineTrades.EngineTradesStayInBudget | internal/service/settlement_service.go:91-161 | Settle any of the books' trades, market buys' included, each once, in any order, some refused: for orders submitted with the executable part of their budget the filled quote stays below the budget each time, so locked stays exactly what is reserved |
| EngineSettlement.EmittedTradesAreMade | internal/matching/engine.go:242-370 | Whatever a started engine has emitted are, per symbol, the trades of one run of that symbol's book, the run its scheduler's marks tell of, as long as no order id was submitted twice |
| EngineSettlement.StateFollowsFromMarks | internal/matching/engine.go:242-370 | In every state of the scheduler each book is where its admissions, slices and cancels lead, every cancel processed was answered as the book then stood, and trades and cancels are numbered without a gap |
| EngineSettlement.AdmittedOrdersWait | internal/matching/engine.go:849-858 | In every state of the scheduler an admitted limit order that is not being swept and of which no cancel was told waits at its price with its amount less all it has traded, whenever that is positive; otherwise nothing of it is on the book |
| EngineSettlement.MarketOrdersAreReported | internal/matching/engine.go:1129-1143 | In every state of the scheduler each admitted market order whose sweep is over has its report among the events, and what it says is the order as submitted less and plus all its emitted trades |
| EngineLogs.NumbersIncrease | internal/matching/engine.go:1178-1182 | No two trades or cancels share a sequence number and a later one has the larger |
| EngineSettlement.EmittedTradesSettleInAnyOrder | internal/service/settlement_service.go:91-161 | End to end: in every state of the scheduler, the trades it has emitted for limit buyers, all symbols together, settle completely in any order with the same result |
| Snapshots.CollectLevels | internal/matching/engine.go:1287-1336 | The walk collects the best levels, at most as many as asked for |
| Snapshots.TakeSnapshot | internal/matching/engine.go:1279-1336 | The view of a book at the normalized depth, with asks and bids as the next row says |
| Snapshots.ViewShows | internal/matching/engine.go:1279-1336 | Asks are the sell side with ascending prices, bids the buy side with descending prices, each level with the sum of what waits there, and no better level is left out |
| Snapshots.ServedIsView | internal/matching/engine.go:689-723 | Truncating the cached view to a depth is viewing the book at that depth |
| MatchingEngines.EmptyChannelPermitsSlice | internal/matching/quantum_config.go:65-77 | The capacity check asks for exactly what a slice needs of an empty channel |
| MatchingEngines.BestMatchableSellOrder | internal/matching/engine.go:1189-1206 | The ascending scan finds the priority counterparty of a limit buy |
| MatchingEngines.BestMarketSellOrder | internal/matching/engine.go:1208-1222 | The ascending scan finds the priority counterparty of a market buy |
| MatchingEngines.BestMatchableBuyOrder | internal/matching/engine.go:1224-1241 | The descending scan finds the priority counterparty of a limit sell |
| MatchingEngines.BestMarketBuyOrder | internal/matching/engine.go:1243-1257 | The descending scan finds the priority counterparty of a market sell |
| MatchingEngines.MatchingEngine.SendExecution | internal/matching/engine.go:1086-1113 | When a reserved send panics and when it cannot |
| MatchingEngines.MatchingEngine.MatchBuy | internal/matching/engine.go:904-937 | The loop does exactly the next slice, or the whole sweep for budget zero, emitting its trades in order under gap-free numbers |
| MatchingEngines.MatchingEngine.MatchSell | internal/matching/engine.go:939-972 | The same for a limit sell |
| MatchingEngines.MatchingEngine.MatchMarketBuy | internal/matching/engine.go:974-1014 | The same for a market buy |
| MatchingEngines.MatchingEngine.MatchMarketSell | internal/matching/engine.go:1016-1051 | The same for a market sell |
| MatchingEngines.MatchingEngine.GetOrderBook | internal/matching/engine.go:795-817 | Symbols never share a book, the first one gets the default book, and asking changes no contents |
| MatchingEngines.MatchingEngine.FlushSnapshots | internal/matching/engine.go:643-658 | Afterwards every symbol's cached snapshot is its book; each dirty symbol's view is sent once at most, and all are sent when the channel has room for them |
| MatchingEngines.MatchingEngine.RequestOrderBookSnapshot | internal/matching/engine.go:689-708 | For a symbol that is not dirty the answer shows the best levels of both sides of its book, as many as asked for between one and thirty, else thirty |
| MatchingEngines.MatchingEngine.FinishOrder | internal/matching/engine.go:849-858 | A market order emits one report with its id, symbol, side, both filled and both remaining amounts; what is left of a limit order is behind all others in the queue of its price, every other queue and the other side unchanged; otherwise the book is left alone |
| MatchingEngines.MatchingEngine.RunSlice | internal/matching/engine.go:497-524 | One slice of the sweep, and when it is the last the rest of a limit order waits at its price with all else unchanged; no panic whatever the consumer does, and at least a full quota of cancels left free |
| MatchingEngines.MatchingEngine.Match | internal/matching/engine.go:889-896 | The one-shot match: the whole sweep, then the rest of a limit order waits at its price with all else unchanged |
| MatchingEngines.MatchingEngine.ProcessCancel | internal/matching/engine.go:612-629 | Removal, event and reply agree: invalid without order id or symbol or with a negative price, removed if and only if that order waits at that price on that side, else not found; no other book or symbol changes |
| MatchingEngines.MatchingEngine.CancelPhase | internal/matching/engine.go:561-595 | Ends; processes within the quota; a latched cancel is answered first or left only when this turn is sure to make progress; every cancel on the channel at the start is received unless the quota is used up; the event channel fills by no more than the cancels processed |
| MatchingEngines.MatchingEngine.NextOrder | internal/matching/engine.go:467-491 | The latched order; without one the oldest on the channel if and only if there is one and less than three quarters of the event channel are taken or the engine is shutting down |
| MatchingEngines.MatchingEngine.AdmitPhase | internal/matching/engine.go:467-491 | Always makes progress, only without an active sweep; admits exactly the latched order, or without one the oldest on the channel if and only if less than three quarters of the event channel are taken or the engine is shutting down |
| MatchingEngines.MatchingEngine.NothingLost | internal/matching/engine.go:340-352 | With nothing in hand and both channels empty, the orders admitted and the cancels answered are exactly those sent, in order and once each |
| MatchingEngines.MatchingEngine.TurnWork | internal/matching/engine.go:265-318 | Exactly one progress unless the sweep active at the start finds no room, where the room found is at least what was free at the start less one place per cancel processed; with room it is a slice of that sweep, without a sweep it is admission; nothing admitted during a sweep; all cancels on the channel are received or the quota is used up |
| MatchingEngines.MatchingEngine.TurnEnd | internal/matching/engine.go:322-370 | Output is closed only with no sweep, nothing latched, both channels received to the end and no dirty symbol |
| MatchingEngines.MatchingEngine.RunTurn | internal/matching/engine.go:265-370 | One turn: books uncrossed, quota never exceeded at any moment, cache coherent, no panic, first come first served; progress is certain when the room at the start, less the rest of the quota, is enough for a slice; a latched order is admitted in a turn that starts without a sweep; closing loses nothing |
| MatchingEngines.MatchingEngine.TwoTurns | internal/matching/engine.go:265-370 | A latched cancel is answered within two turns |
| MatchingEngines.MatchingEngine.RunTurns | internal/matching/engine.go:242-258 | Over any number of turns every turn is fair in that sense: progress is missed exactly in the turns whose sweep found no room, a latched cancel is answered in its turn or the next, and a closed engine has admitted every order and answered every cancel in the order sent |
| DispatcherProofs.DispatcherIsSafe | cmd/settlement_pipeline.go:98-277 | For every interleaving: a terminal is sent only after every earlier queued trade of its order completed without leaving the order undurable; outstanding jobs within twice the concurrency; broadcasts gap-free in dispatch order |
| DispatcherProofs.ReportFindsRoom | cmd/settlement_pipeline.go:109-116 | A worker's completion send never blocks |
| DispatcherProofs.StuckOnlyAfterDrop | cmd/settlement_pipeline.go:143-163 | A pass ends in a select that waits for nothing exactly when it dropped a quarantined terminal while another one waits and nothing else is left |
| DispatcherProofs.DroppingCanStrand | cmd/settlement_pipeline.go:143-163 | A run in which that happens |
| DispatcherProofs.CleanRunsFinish | cmd/settlement_pipeline.go:179-277 | With no undurable report the dispatcher never gets stuck, and when it ends every queued event was taken, every terminal sent and every result broadcast |
| DispatcherServices.TouchedOrderIDs | cmd/settlement_dependency.go:29-45 | Exactly the orders of a batch's trades, each once |
| DispatcherServices.DependencyTracker.Register | cmd/settlement_dependency.go:49-55 | Counters stay the number of jobs in flight that touch each order |
| DispatcherServices.DependencyTracker.Retire | cmd/settlement_dependency.go:59-78 | The same on retirement; undurable orders are quarantined; an unknown job changes nothing |
| DispatcherServices.DependencyTracker.Ready | cmd/settlement_dependency.go:80-80 | Ready if and only if no dispatched job touches the order |
| DispatcherServices.CollectTradeBatch | cmd/main.go:801-821 | The trades right behind the first, up to the limit; a terminal is handed back; a closed queue is noticed |
| DispatcherServices.FlushBroadcasts | cmd/settlement_pipeline.go:127-140 | Broadcasts results in line until the first gap |
| DispatcherServices.PartitionDispatcher.TakeReady | cmd/settlement_pipeline.go:143-163 | The loop variables follow the transition that takes a ready terminal |
| DispatcherServices.PartitionDispatcher.ListTerminal | cmd/settlement_pipeline.go:165-177 | A terminal is listed unless its order is |
| DispatcherServices.PartitionDispatcher.Prepares | cmd/settlement_pipeline.go:179-230 | A pass of the loop is the transition system's pass |
| DispatcherServices.PartitionDispatcher.SendJob | cmd/settlement_pipeline.go:248-254 | Sending a job is the dispatch transition |
| DispatcherServices.PartitionDispatcher.Hear | cmd/settlement_pipeline.go:255-271 | Receiving a completion is the receive transition |
| DispatcherServices.PartitionDispatcher.TakeInput | cmd/settlement_pipeline.go:271-276 | Taking input is the input transition |
| CancelProtocol.EmittedIsPending | internal/service/cancel_command_worker.go:40-48 | A command whose event is out but not committed is pending |
| CancelProtocol.CommitNeverFails | internal/repository/trade_outbox_repository.go:32-70 | The row count of the outbox transaction is always met |
| CancelProtocol.CancelsAreExact | internal/service/cancel_command_worker.go:126-320 | In every run with timeouts, repeated dispatch, crash and restart: PROCESSED exactly when the cancellation is committed, no NOOP overtakes an event, no command has two calls outstanding |
| CancelProtocol.CancelsAreTriedAgain | internal/service/cancel_command_worker.go:126-331 | In every such run no pending command is forgotten: a call for it is out, or its cancellation is out and not committed, or it can be dispatched; and a command waits for the outbox only while its cancellation is out or committed |
| CancelServices.DedupeNonzero | internal/repository/trade_outbox_repository.go:72-89 | The distinct non-zero values, nothing else |
| CancelServices.CancelStore.CreateOrGet | internal/repository/cancel_command_repository.go:29-46 | One command per order |
| CancelServices.CancelStore.InsertBatchAndMarkCancelCommands | internal/repository/trade_outbox_repository.go:32-70 | Rows and command states together or neither; refuses to complete commands without rows |
| CancelServices.MarkingIsCommit | internal/repository/trade_outbox_repository.go:32-70 | Marking a batch's commands is the protocol's commit |
| CancelServices.FindPending | internal/repository/cancel_command_repository.go:52-63 | The first pending commands in id order after exclusion: any other one comes later and the limit is used up |
| CancelServices.BackoffDoubles | internal/service/cancel_command_worker.go:322-331 | The wait doubles from the initial one up to the most |
| CancelServices.CancelCommandWorker.ApplyResult | internal/service/cancel_command_worker.go:269-331 | A failed call, and an unknown order that is still open or cannot be marked, are tried again after a doubled wait; a cancellation that is out waits for the outbox; an unknown closed order is marked NOOP and let go; a result for no command in hand and all other commands change nothing |
| CancelServices.CancelCommandWorker.ReleaseCompleted | internal/service/cancel_command_worker.go:163-186 | Lets go of exactly the waiting commands that are no longer pending |
| CancelServices.CancelCommandWorker.DispatchReady | internal/service/cancel_command_worker.go:204-230 | Starts as many as slots allow, only commands with no call out |
| EventFlow.Route | cmd/main.go:704-713 | The queue index is within the workers |
| EventFlow.SymbolsArriveInOrder | internal/matching/sharded.go:65-115 | For any interleaving of shards, forwarders, batches and commits a symbol's events arrive in its one queue as a prefix of their emission order, each once and only after commit |
| EventFlowServices.ShardedEngine.ShardFor | internal/matching/sharded.go:51-59 | A symbol keeps its shard; a new one gets the next in turn; no other symbol is touched |
| EventFlowServices.OutboxWriter.CollectBatch | internal/service/outbox_writer.go:66-82 | The batch and what is left are the source in order, within the batch size |
| EventFlowServices.OutboxWriter.TryCommit | internal/repository/trade_outbox_repository.go:32-70 | An attempt inserts the rows and completes their pending commands, or fails and changes nothing |
| EventFlowServices.OutboxWriter.FlushAndForward | internal/service/outbox_writer.go:90-138 | After any number of failed attempts the events are committed once with their commands and then handed on in order, or nothing has happened at all |
| EventFlowServices.OutboxWriter.Round | internal/service/outbox_writer.go:52-64 | One round appends each symbol's events to its queue, in order, and to no other, and only once they are committed |
| EventFlowServices.DeliverKeepsOrder | cmd/main.go:689-691 | Routing keeps each symbol's order |

## Left out

- HTTP handlers, authentication, WebSocket hub, market data client, configuration, migrations, metrics and observers: no bearing on the properties.
- SQL text, row locks and deadlock order: a transaction is one atomic step.
- Wall clock, tickers and sleeps: timeouts are steps that may happen at any time; only backoff intervals are numbers.
- String forms: trimming and upper-casing of symbols, the hash behind a default trade key, JSON payloads of outbox rows. A key is taken as given and an event always encodes.
- Average buy price: stated for each trade, left out of the statements about settlement order, which its rounding depends on.
- Order idempotency beyond the hold group: fingerprints are compared as values, the answer replayed to a client is not modelled.
- Orders and cancels with an empty symbol in the engine: the services never submit them; the default book is modelled only as the first symbol's book.
- An engine without an execution channel, the crash hook and the trade channel: used only by tests.
- Restart while a cancellation is deferred: on restart every committed row is taken to be replayed before orders are loaded.
- Wrap-around of the round-robin counter of shards after 2^63 new symbols.
- Reverse: has no caller outside its own tests; modelled as it stands.
- Ledger.ReplayIsDecidedByContent: compares postings as multisets, not by sorting and comparing tuples.
- EventFlowServices.OutboxWriter.FlushAndForward: stops after a given number of attempts, because the code retries for as long as the database refuses.
- CancelStore.MarkNoopRow and the methods by which producers and workers act on the dispatcher: carried in the classes, their meaning is part of the protocol theorems.
- EngineTrades.EngineTradesStayInBudget: asks for budgets of at most sixteen decimals that are worth more than their rounding; smaller ones have an executable quote not below the budget (`Fees.ExecutableQuoteBelowBudget`).
- EngineTrades.EngineTradesSettleInAnyOrder: covers limit buyers; whether a market buyer's last trade settles depends on what else is locked at that moment (`Progress.MarketTradeSettles`), so its place in the order can matter.
- CancelServices.CancelCommandWorker.ApplyResult: takes what the order lookup and the update returned as parameters.
- OrderServices.OrderService.RejectAcceptedOrder: does not model the outcome written to the idempotency record.
- Database failures other than the constraints and row counts stated: a failed transaction changes nothing and is retried by its caller.
- DispatcherServices.PartitionDispatcher.Prepares: numbers events as they are placed so that terminals can be told apart; the code needs no such counter.
