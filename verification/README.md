# Verification of the Intern Trading Game exchange

A Dafny model of the exchange core and of the response coordinator, with proofs
of what they guarantee. `dafny verify dfyconfig.toml` checks everything.

Prices are whole pennies and quantities whole contracts; a missing price is a
market order. Midpoints, averages and clock readings are reals. Randomness is
nondeterminism: the tie-break of a batch may be any permutation sorted by price.
The trade history of a book is the 100-element deque beside a ghost log of every
trade. Clock readings, phase states and random draws are parameters.

## How the files fit together

The order book is modelled three times, each layer refining the one above it.

- `PriceTime.dfy`, `BookLaws.dfy`: the book as two flat priority lists, and what
  adding and cancelling do to it. `WalkTradesShares` shows that the greedy walk is
  the price-time allocation defined without any walk.
- `PriceLevels.dfy`: price levels with FIFO queues, and the lemmas that flatten them.
- `OrderBook.dfy`: the classes, changed in place. `AddOrder` and `CancelOrder` are
  proved to be the flat `Add` and `Cancel`.

The opening auction is two algorithms and the theorem that links them.

- `BatchAuction.dfy`: the two-pointer match trades the best uniform-price volume.
- `ClearingPrice.dfy`: the maximum-volume strategy finds that volume over all real prices.
- `BatchAccounts.dfy`, `UnreportedFills.dfy`: leftovers filed into the book, and when the
  results account for every trade.
- `AuctionShares.dfy`: what the pairing owes each order, and when it trades past the book.
- `BatchEngine.dfy`: the engine on order objects, over all books.
- `ContinuousEngine.dfy`: the engine of the continuous phase.

The exchange is a state machine.

- `Registry.dfy`: books against the orders ever accepted.
- `Exchange.dfy`, `ExchangeSteps.dfy`: state, steps and the invariant every step keeps.
- `ExchangeLogs.dfy`, `ExchangeLaws.dfy`, `ExchangeRuns.dfy`: what steps add to the logs,
  legality and conservation over all runs, the phase actions, and what happens to held and
  resting orders.
- `ExchangeAuction.dfy`: every auction of a run against the clearing price strategy.
- `VenueObjects.dfy`, `VenueOrders.dfy`, `VenueBatches.dfy`, `Venue.dfy`: the venue on its
  objects. `Valid()` ties order books, held orders and every accepted order object to a state
  of the state machine, and each method is one step of it.

Settlement and pre-trade checks are fast forms of sums over a history.

- `Positions.dfy`, `TradeProcessor.dfy`, `ExchangeSettlement.dfy`: positions from fills,
  average prices, and positions against the full log of a run.
- `RateLimit.dfy`, `Validation.dfy`: one-second windows against clock time, and the constraint
  checks against the position service.

The coordinator stands alone: `Coordination.dfy` is the state machine of its locked
sections, `Coordinator.dfy` the object, each method one step. A wait is split into a
begin, then a wake-up, or a timeout and a second locked section. `Collections.dfy` lists sets.

## What turned out otherwise than documented

The model follows the code in each case. `Witnesses.dfy` has an input for the first three,
for the reused id and for the self-trade.

- A market sell has sort key 0, so it comes first and stops the batch loop: the batch then
  trades nothing even if limit orders cross. `GreedyIsMaximumIff` and
  `EngineTradesMaximum` give the exact condition for the maximum volume.
- Filing leftovers credits fills only to the incoming order, so a market sell filed against
  a buy limit of its own batch leaves that buy's result short; `BatchReportsIff` says
  exactly when, over any book. Orders resting before the batch get no result either.
- Batch trades print at the sell limit, not at a uniform price; the strategy is not wired in.
  They can print past a better resting price, because pairing never looks at the book
  (`TradesThroughIff`).
- `get_recent_trades` returns the oldest of the last trades first, and limit 0 returns them all.
- Held orders cannot be cancelled, the close does not clear them, and a run of polls that
  misses the opening auction leaves them held (`SkippedAuctionStrands`).
- Ids of filled and dropped orders are never released (`OnlyRestingIdsAreReleased`), while a
  cancelled id can be used again and then breaks conservation per id exactly if it had traded
  in that instrument (`ConservedExactly`).
- A trade of a team with itself moves its position by the whole quantity, because the
  counterparty update is skipped; `RunSettles` states the exact drift. Batch trades never reach
  the tracker, so positions equal the log exactly when drift and batch trades cancel out.
- A status update of an active request to a terminal status breaks the coordinator's invariant
  (`UpdateInStepIff`, `UpdateStatus`). A completion between a wait's timeout and its return to the lock is
  stored and never read, unless a cleanup takes it first (`OrphanedExactly`); one purged by a
  cleanup turns the wake-up into an error (`WakeOutcome`).

## Model

| member | source | states |
|---|---|---|
| PriceTime.WalkTradesShares | src/intern_trading_game/domain/exchange/components/orderbook/book.py:504-573 | Matching hands every resting order exactly its price-time share, defined without any walk: what the better-placed orders leave over, within its own size. One trade per order with a positive share, best price first and first-in first-out within a price, at the resting price; nobody behind the last one gets anything. |
| PriceTime.WalkLeavesRest | src/intern_trading_game/domain/exchange/components/orderbook/book.py:524-570 | What the walk leaves of a side: fully consumed orders are gone, everybody else keeps its place with its share taken off. |
| PriceTime.WalkFillsOrder | src/intern_trading_game/domain/exchange/components/orderbook/book.py:504-573 | The incoming order loses exactly the volume traded, is never overfilled, and a partly filled one stops only at an empty side or an unacceptable price. |
| BookLaws.WalkTradesFairly | src/intern_trading_game/domain/exchange/components/orderbook/book.py:512-551 | Every trade is with the k-th resting order, at its price, inside the incoming limit, with the right parties and aggressor, and prices only get worse along the list. |
| BookLaws.AddKeepsBook | src/intern_trading_game/domain/exchange/components/orderbook/book.py:365-384 | Adding any well-formed new order keeps the book valid: sides sorted, every resting order of its side with quantity left, ids unique, and every bid below every ask. |
| BookLaws.AddConserves | src/intern_trading_game/domain/exchange/components/orderbook/book.py:365-384 | What an addition takes from any other id in the book is what it traded; the newcomer keeps what it did not trade, resting if it has a limit and nowhere if it is a market order. |
| BookLaws.AddKeepsOthers | src/intern_trading_game/domain/exchange/components/orderbook/book.py:365-384 | An addition leaves every order of its own side, and every opposite order it may not trade with, exactly as it was. |
| BookLaws.CancelKeepsBook | src/intern_trading_game/domain/exchange/components/orderbook/book.py:422-443 | Cancelling keeps the book valid, takes out that id and no other, and no other order loses quantity. |
| BookLaws.WithoutDrops | src/intern_trading_game/domain/exchange/components/orderbook/book.py:125-150 | Taking an order out of a queue leaves all others in the same order. |
| PriceLevels.ViewIsBook | src/intern_trading_game/domain/exchange/components/orderbook/book.py:259-288 | Price levels with cached totals and an id index, in their invariant, stand for a valid flat price-time book: both sides sorted, best bid below best ask, index keys exactly the resting ids. |
| PriceLevels.JoinedView | src/intern_trading_game/domain/exchange/components/orderbook/book.py:597-637 | Joining the queue of the level at the price is inserting behind every order of the same price or better, and keeps index, totals and sides valid. |
| PriceLevels.OpenedView | src/intern_trading_game/domain/exchange/components/orderbook/book.py:597-637 | Opening a level at the bisected position is the same insertion when no level has the price. |
| PriceLevels.DroppedView | src/intern_trading_game/domain/exchange/components/orderbook/book.py:425-443 | Removing an order from its level, and the level if that empties it, with its index entries, is cancelling in the flat book. |
| PriceLevels.FindIndexed | src/intern_trading_game/domain/exchange/components/orderbook/book.py:639-659 | An indexed id rests at its indexed price on exactly one side, once: no other level of either side has that price. |
| PriceLevels.LevelDepths | src/intern_trading_game/domain/exchange/components/orderbook/book.py:737-799 | Each level holds exactly the orders of its side at its price. |
| OrderBooks.PriceLevel.RemoveOrder | src/intern_trading_game/domain/exchange/components/orderbook/book.py:125-150 | Returns the first order with the id, if any, and takes its remaining quantity off the cached total. |
| OrderBooks.OrderBook.MatchOrder | src/intern_trading_game/domain/exchange/components/orderbook/book.py:504-573 | The in-place matching loop over nested level queues makes exactly the trades of the flat walk and leaves exactly its rest, with both order objects reduced alike. |
| OrderBooks.OrderBook.BisectLevels | src/intern_trading_game/domain/exchange/components/orderbook/book.py:597-637 | Binary search finds the sorted position of a price among the levels of a side. |
| OrderBooks.OrderBook.InsertOrder | src/intern_trading_game/domain/exchange/components/orderbook/book.py:597-637 | The unfilled remainder ends up in the flat book where a newcomer queues, whether its level existed or not. |
| OrderBooks.OrderBook.AddOrder | src/intern_trading_game/domain/exchange/components/orderbook/book.py:365-384 | Refines the flat addition: errors exactly for a foreign instrument or an id already in the book, changing nothing; otherwise book, order and trades are those of the flat book and every resting object loses exactly what it traded. |
| OrderBooks.OrderBook.IsBidPrice | src/intern_trading_game/domain/exchange/components/orderbook/book.py:639-659 | Whether some bid level has the price. |
| OrderBooks.OrderBook.GetOrder | src/intern_trading_game/domain/exchange/components/orderbook/book.py:837-849 | Finds an order exactly when the id rests, and then that very object, although the side is guessed from the price. |
| OrderBooks.OrderBook.CancelOrder | src/intern_trading_game/domain/exchange/components/orderbook/book.py:422-443 | Succeeds exactly when the id rests, returns that object, and the flat book loses that order and nothing else. |
| OrderBooks.OrderBook.Depth | src/intern_trading_game/domain/exchange/components/orderbook/book.py:791-799 | The best n levels with, per price, the total remaining quantity of the orders resting there. |
| OrderBooks.OrderBook.GetRecentTrades | src/intern_trading_game/domain/exchange/components/orderbook/book.py:851-902 | The last trades of the newest 100, oldest first; limit 0 returns all of those, and a negative limit all but the first of them, which is nothing once those are as many as there are. |
| OrderBooks.Order.Fill | src/intern_trading_game/domain/exchange/components/core/models.py:397-421 | Fills only a positive quantity within what remains, and otherwise changes nothing. |
| BatchAuction.GreedyIsMaximum | src/intern_trading_game/domain/exchange/components/orderbook/matching_engine.py:376-402 | On sorted sides without market sells the two-pointer match trades the most that any single real price would let trade. |
| BatchAuction.GreedyIsMaximumIff | src/intern_trading_game/domain/exchange/components/orderbook/matching_engine.py:376-402 | For all sorted sides: it trades that maximum if and only if there is no market sell or nothing crosses at all (a market sell sorts first and stops the loop). |
| BatchAuction.DrawDoesNotMatter | src/intern_trading_game/domain/exchange/components/orderbook/matching_engine.py:684-707 | Whatever the random tie-break, the quantity traded is the same, market orders included. |
| ClearingPrice.CollectCrossingPrices | src/intern_trading_game/domain/exchange/components/orderbook/batch_auction_strategies.py:317-346 | The candidate prices are exactly the order prices between the lowest ask and the highest bid. |
| ClearingPrice.FindOptimalPrices | src/intern_trading_game/domain/exchange/components/orderbook/batch_auction_strategies.py:348-385 | All candidates of the largest volume, each once, and nothing exactly when every candidate has none. |
| ClearingPrice.FillsDoNotMatter | src/intern_trading_game/domain/exchange/components/orderbook/batch_auction_strategies.py:256-291 | The strategy weighs orders by full size: partly filled orders trade at every price what the same orders fresh would. |
| ClearingPrice.CandidatesSuffice | src/intern_trading_game/domain/exchange/components/orderbook/batch_auction_strategies.py:317-346 | Every real price with positive volume is matched or beaten by a candidate, so looking at order prices only loses nothing. |
| ClearingPrice.VolumeBetween | src/intern_trading_game/domain/exchange/components/orderbook/batch_auction_strategies.py:387-405 | Between two prices of equal volume at the maximum the volume stays the same (min of demand and supply is quasi-concave), which justifies the midpoint. |
| ClearingPrice.CalculateClearingPrice | src/intern_trading_game/domain/exchange/components/orderbook/batch_auction_strategies.py:205-254 | The reported volume is the maximum over all real prices. The range goes from the least to the greatest order price that trades it and is missing exactly when these are one; the price is its middle, and every price of the range trades the same. A price is reported exactly when something trades; fails exactly when a non-empty side has market orders only. |
| ClearingPrice.EngineTradesMaximum | src/intern_trading_game/domain/exchange/components/orderbook/matching_engine.py:360-406 | The two independently written algorithms agree: for fresh orders and any draw, the engine trades the strategy's maximum if and only if there is no market sell or nothing crosses. |
| ExchangeAuction.RunTradesMaximum | src/intern_trading_game/domain/exchange/components/orderbook/matching_engine.py:571-619 | Every auction and executed batch of every run, whatever the draw: the pairs of an instrument trade the most any single real price lets its held orders trade, if and only if no market sell is held or no held limits cross. |
| ExchangeAuction.DrawSortsHeld | src/intern_trading_game/domain/exchange/components/orderbook/matching_engine.py:684-707 | Any draw holds each held order exactly once, on its side. |
| AuctionShares.SellsGetShares | src/intern_trading_game/domain/exchange/components/orderbook/matching_engine.py:376-402 | The auction gives every sell exactly its share, defined without any pairing: the demand at its limit that the sells sorted before it leave over, within its own size. |
| AuctionShares.BuysGetShares | src/intern_trading_game/domain/exchange/components/orderbook/matching_engine.py:376-402 | The same for every buy, by the supply at its limit that the buys sorted before it leave over. |
| AuctionShares.TradesThroughIff | src/intern_trading_game/domain/exchange/components/orderbook/matching_engine.py:373-402 | The pairing never looks at the book: it prints a price that a resting order betters, a lower ask or a higher bid, if and only if no market sell is in the batch and some sell with a share has such a limit. |
| BatchAccounts.GreedyIsLegal | src/intern_trading_game/domain/exchange/components/orderbook/matching_engine.py:381-393 | Every batch trade is between a buy and a sell of the instrument, at the sell limit and within the buy limit, with the buyer as aggressor. |
| BatchAccounts.GreedyConserves | src/intern_trading_game/domain/exchange/components/orderbook/matching_engine.py:338-358 | In the pairs, what an order lost is what it traded. |
| BatchAccounts.FileKeepsBook | src/intern_trading_game/domain/exchange/components/orderbook/matching_engine.py:408-417 | Adding the leftovers one by one keeps the book valid and logs exactly their trades. |
| BatchAccounts.BatchSettles | src/intern_trading_game/domain/exchange/components/orderbook/matching_engine.py:360-417 | Over any valid book and any draw: the book stays valid and uncrossed, every order ends with what it did not trade, a limit order rests with exactly that, a market order is gone. |
| BatchAccounts.BatchReports | src/intern_trading_game/domain/exchange/components/orderbook/matching_engine.py:404-432 | Without a market sell that could be filed against a buy limit: every order has a result whose fills sum to what it lost, with the matching status, and every unfilled limit order rests as reported. |
| UnreportedFills.BatchReportsIff | src/intern_trading_game/domain/exchange/components/orderbook/matching_engine.py:408-432 | Over any valid book, all results account for all fills if and only if no market sell meets a buy limit in the batch, or every buy left resting has at least as much ahead of it in the book as the sells willing to trade at its price have to sell. |
| UnreportedFills.SellsReach | src/intern_trading_game/domain/exchange/components/orderbook/matching_engine.py:408-417 | How far sorted sells reach into any book: a resting bid trades with them exactly when the willing ones have more to sell than is ahead of it. |
| UnreportedFills.EmptyBookReportsIff | src/intern_trading_game/domain/exchange/components/orderbook/matching_engine.py:408-432 | Over an empty book the condition is that the batch has no market sell or no buy limit: the best buy always loses quantity its result never shows, because filing credits only the incoming order. |
| BatchEngines.RandomizeSamePrice | src/intern_trading_game/domain/exchange/components/orderbook/matching_engine.py:684-707 | Any result is a permutation sorted by price; equal prices may come in any order. |
| BatchEngines.PairOff | src/intern_trading_game/domain/exchange/components/orderbook/matching_engine.py:373-402 | The two-index loop over order objects makes exactly the greedy trades, reduces both objects of each, records every trade with both orders and in the book history, and leaves exactly the greedy leftovers. |
| BatchEngines.FileRest | src/intern_trading_game/domain/exchange/components/orderbook/matching_engine.py:408-417 | The filing loop leaves the book of the flat filing, credits each trade to the filed order alone, and every object loses exactly what it traded. |
| BatchEngines.MatchBatch | src/intern_trading_game/domain/exchange/components/orderbook/matching_engine.py:360-406 | One instrument's batch in place: some draw of the held orders, and book, fills and every object's remaining quantity are those of that draw. |
| BatchEngines.FinalizeResults | src/intern_trading_game/domain/exchange/components/orderbook/matching_engine.py:419-432 | Exactly one result per order, with its collected fills, its remaining quantity and the status that follows. |
| BatchEngines.BatchMatchingEngine.SubmitOrder | src/intern_trading_game/domain/exchange/components/orderbook/matching_engine.py:551-569 | Holds the order back behind the others of its instrument and touches no book. |
| BatchEngines.BatchMatchingEngine.ExecuteBatch | src/intern_trading_game/domain/exchange/components/orderbook/matching_engine.py:571-619 | Every listed instrument's batch is matched independently of the others, every held order gets exactly one result, unlisted instruments are reported untraded, and nothing is held afterwards. |
| ContinuousEngines.SubmitOrder | src/intern_trading_game/domain/exchange/components/orderbook/matching_engine.py:185-235 | The continuous engine passes the book's errors through and otherwise reports the trades and what is left. |
| ContinuousEngines.PlacedAddsUp | src/intern_trading_game/domain/exchange/components/orderbook/matching_engine.py:217-235 | A continuous result adds up: its fills are what the order lost, the status says whether none, some or all, and an unfilled order rests afterwards exactly if it has a limit. |
| Registry.AddAgrees | src/intern_trading_game/domain/exchange/components/orderbook/book.py:365-384 | After an addition every resting order is the accepted order as it now is, and all trades are legal between accepted orders of opposite sides. |
| Registry.BatchAgrees | src/intern_trading_game/domain/exchange/components/orderbook/matching_engine.py:571-619 | The same after a batch. |
| Exchanges.IdsInOnePlace | src/intern_trading_game/domain/exchange/venue.py:257-328 | No id is in two books, two held lists, or both; only ids in use are anywhere. |
| ExchangeSteps.HeldIsReady | src/intern_trading_game/domain/exchange/components/orderbook/matching_engine.py:571-619 | In every reachable state the held orders are new to their book, so filing them cannot raise the duplicate-id error. |
| ExchangeSteps.StepKeepsInv | src/intern_trading_game/domain/exchange/venue.py:226-328 | Every submission, cancellation, batch, phase poll and listing keeps the exchange invariant. |
| ExchangeSteps.SubmissionOutcome | src/intern_trading_game/domain/exchange/venue.py:247-286 | The same for any state that satisfies the invariant, reachable or not: reply, books, held orders and ids in use after a submission, case by case in the fields of the phase. |
| ExchangeLaws.StepTradesLegal | src/intern_trading_game/domain/exchange/venue.py:226-328 | Whatever ids were reused before, every trade that any step adds to a log is between a buy and a sell of that instrument as accepted, and within both limits. |
| ExchangeLaws.StepFills | src/intern_trading_game/domain/exchange/venue.py:226-328 | What any step makes of any order: the order it accepts under the id, or else the order there was, less exactly what the step's new trades give it. |
| ExchangeLaws.ReusedIdConserved | src/intern_trading_game/domain/exchange/venue.py:302-328 | An order accepted under any id starts out conserved if and only if its instrument's log has nothing under that id, whatever state the other accounts are in. |
| ExchangeRuns.RunKeepsIdsApart | src/intern_trading_game/domain/exchange/venue.py:257-328 | In every state of every run the ids of books and held lists are disjoint, each occurs once, and all are in the id set. |
| ExchangeRuns.RunReplies | src/intern_trading_game/domain/exchange/venue.py:247-286 | In every reachable state: a submission is refused without effect when the phase takes none, the instrument is unknown or the id in use; held behind the others with no book touched when the phase matches in batches or not at all; and otherwise matched against its own book at once. The book's own duplicate check is never reached. |
| ExchangeRuns.SubmitsTradeOnlyWhenMatching | src/intern_trading_game/domain/exchange/venue.py:610-626 | Over any run, a submission that changes a book or a log or reports a fill comes in a phase that takes orders, matches, and does not match in batches. In such a phase nothing is held back, and held lists change exactly when the reply says the order is pending. |
| ExchangeRuns.RunTradesLegal | src/intern_trading_game/domain/exchange/venue.py:226-328 | Over every run, with whatever reuse of ids: each logged trade was added by one step, and was then between a buy and a sell of that instrument, within both limits. |
| ExchangeRuns.ConservedExactly | src/intern_trading_game/domain/exchange/venue.py:226-328 | Over every run and for every id: the log has under it beyond what the order lost exactly what it had when an order was last accepted under it, so quantity = remaining + logged trades if and only if that is nothing. |
| ExchangeRuns.RunKeepsLedger | src/intern_trading_game/domain/exchange/venue.py:226-286 | In runs without reuse every order is conserved, and every logged trade stays legal between the orders as they now are; under a reused id another order stands there. |
| ExchangeRuns.BoughtIsSold | src/intern_trading_game/domain/exchange/components/orderbook/matching_engine.py:338-358 | Over any such run, the total bought by all orders of an instrument equals the total sold and the volume of its log. |
| ExchangeRuns.ActionsPerTransition | src/intern_trading_game/domain/exchange/phase/transition_handler.py:143-197 | Over any run the auction runs exactly once per pre-open phase polled right before an opening auction, the close exactly once per continuous phase polled right before a closed one; a reset in between breaks the pair. |
| ExchangeRuns.PollsAct | src/intern_trading_game/domain/exchange/phase/transition_handler.py:143-197 | The auction leaves nothing held and releases no id; the close leaves nothing resting, releases exactly the ids that rested and keeps held orders and logs; any other poll changes only the phase. |
| ExchangeRuns.SkippedAuctionStrands | src/intern_trading_game/domain/exchange/phase/transition_handler.py:143-197 | Over any stretch of any run, held orders stay held throughout if and only if no step of it executes a batch or polls the auction phase right after pre-open; a run that skips that poll strands them. |
| ExchangeRuns.HeldCannotBeCancelled | src/intern_trading_game/domain/exchange/venue.py:302-328 | Nobody can cancel a held order. |
| ExchangeRuns.CancelOutcome | src/intern_trading_game/domain/exchange/venue.py:302-328 | Exactly when a cancellation succeeds or fails for ownership; success releases that id and no other, anything else changes nothing. |
| ExchangeRuns.OnlyRestingIdsAreReleased | src/intern_trading_game/domain/exchange/venue.py:302-328 | Only a cancellation or the close releases an id, and only a resting one: ids of filled, dropped and held orders stay in use for ever. |
| Venues.TransitionHandler.CheckTransition | src/intern_trading_game/domain/exchange/phase/transition_handler.py:143-160 | Reports a change exactly when the phase differs from the last one heard, acts by the dispatch table, and does neither without a baseline. |
| Venues.ExchangeVenue.ListInstrument | src/intern_trading_game/domain/exchange/venue.py:206-224 | Opens an empty book object for a new instrument and refuses a listed one. |
| Venues.ExchangeVenue.SubmitOrder | src/intern_trading_game/domain/exchange/venue.py:247-286 | On book, engine and order objects: phase check, unknown instrument, duplicate id, then held exactly in a batch phase or one without matching, and matched at once exactly in the others. One step of the state machine, in the reply and in the state of every object of the venue. |
| VenueOrders.MatchIn | src/intern_trading_game/domain/exchange/components/orderbook/matching_engine.py:185-235 | Matching in one of many books reduces the objects that traded, and leaves every other book, held order and accepted order as it was. |
| Venues.ExchangeVenue.CancelOrder | src/intern_trading_game/domain/exchange/venue.py:302-328 | Asking one book object after another decides as if it were known where the order rests, and takes out that order object alone. |
| Venues.ExchangeVenue.CancelAllOrders | src/intern_trading_game/domain/exchange/venue.py:546-564 | Collecting and cancelling every order of every book, one by one, is the close: all books empty, exactly their ids released, held orders kept. |
| Venues.ExchangeVenue.RunBatchEngine | src/intern_trading_game/domain/exchange/venue.py:515-521 | The engine over all book objects is one step of the exchange for some draw the state machine allows: all books, held orders and accepted orders together. Every held order gets the result of its instrument's outcome. |
| Venues.ExchangeVenue.ExecuteBatch | src/intern_trading_game/domain/exchange/venue.py:435-440 | Runs the engine in a batch phase and does nothing otherwise. |
| Venues.ExchangeVenue.CheckPhaseTransitions | src/intern_trading_game/domain/exchange/venue.py:596-603 | The cached phase changes before the transition acts, and the poll is one step of the state machine. |
| VenueBatches.EngineDrawsAllowed | src/intern_trading_game/domain/exchange/components/orderbook/matching_engine.py:684-707 | Every draw the batch engine makes on objects is one the exchange state machine allows. |
| Positions.TotalAfter | src/intern_trading_game/domain/exchange/validation/order_validator.py:145-164 | Total minus old absolute plus new absolute is the total recomputed after the change, for an instrument held before or not. |
| Positions.TotalGrows | src/intern_trading_game/domain/exchange/validation/order_validator.py:145-147 | The total over no positions is 0, and a new position adds its size, long or short. |
| Positions.CheckPortfolioLimit | src/intern_trading_game/domain/exchange/validation/order_validator.py:139-168 | The incremental portfolio check decides as recomputing over the fully filled order would. |
| Positions.PositionService.UpdatePosition | src/intern_trading_game/domain/positions/position_service.py:117-127 | Adds to one position, creating it at 0, and leaves every other position of every team alone. |
| Positions.PositionService.GetTotalAbsolutePosition | src/intern_trading_game/domain/positions/position_service.py:280-282 | The sum of absolute positions, whatever the order of the dictionary. |
| Positions.TrackPositions | src/intern_trading_game/domain/positions/threads.py:91-118 | Draining the queue changes every position by exactly the sum over all fills of all messages. |
| Positions.MessageSettles | src/intern_trading_game/domain/positions/threads.py:12-44 | Settling a message gives every team what it bought less what it sold, plus the drift of trades of a team with itself. |
| Positions.NetSumsToZero | src/intern_trading_game/domain/positions/threads.py:12-44 | Bought less sold cancels out over all teams that traded. |
| ExchangeLogs.StepLogs | src/intern_trading_game/domain/exchange/threads_v2.py:333-355 | Every step adds to a log exactly the fills it publishes to the tracker, or its batch trades, which it does not. |
| ExchangeSettlement.RunSettles | src/intern_trading_game/domain/positions/threads.py:91-118 | Over any run, what the tracker makes of the queue is bought less sold in the full log, less what batches traded, plus the drift of self-trades. |
| ExchangeSettlement.SettleRun | src/intern_trading_game/domain/positions/threads.py:91-118 | Without batches and self-trades, once the queue is drained every position is bought less sold in the book's full log, and positions sum to zero. |
| TradeProcessing.AverageBetween | src/intern_trading_game/domain/positions/trade_processor.py:344-346 | The average price lies within any bounds on the fill prices, for any number of fills. |
| TradeProcessing.AverageWithinLimit | src/intern_trading_game/domain/positions/trade_processor.py:344-346 | Composed with matching: the average of an incoming order lies between its first and last fill price and never beyond its own limit. |
| TradeProcessing.AverageOfOne | src/intern_trading_game/domain/positions/trade_processor.py:344-346 | One fill averages to its own price. |
| TradeProcessing.AverageOfParts | src/intern_trading_game/domain/positions/trade_processor.py:344-346 | Average times volume adds up over parts: with the row above this makes the average the volume-weighted mean and nothing else. |
| TradeProcessing.AverageOfPermuted | src/intern_trading_game/domain/positions/trade_processor.py:344-346 | The order of the fills does not matter. |
| TradeProcessing.SettlesAlike | src/intern_trading_game/domain/positions/trade_processor.py:415-514 | Settling the total at once and each counterparty by order id is settling fill by fill by side, as the tracker does. |
| TradeProcessing.ProcessTradeResult | src/intern_trading_game/domain/positions/trade_processor.py:193-239 | Quantity and average of the response, and positions exactly as the tracker would leave them. |
| RateLimit.StreakCounts | src/intern_trading_game/services/order_validation.py:264-275 | A window never counts too much, and counts all of its second exactly when that second's increments are the latest. |
| RateLimit.ShownIsCount | src/intern_trading_game/services/order_validation.py:222-237 | What a window shows for a time is the true count of its second if and only if that second's increments are the team's latest. |
| RateLimit.SecondSpans | src/intern_trading_game/services/order_validation.py:73-73 | The readings of one second: from n up to but not n + 1 for n of at least 1, mirrored for negative readings, so that second 0 spans two. |
| RateLimit.ShownByClock | src/intern_trading_game/services/order_validation.py:222-237 | In clock time: during [n, n + 1) on a clock that never went back, a window shows exactly the number of increments made at readings of [n, n + 1). For n = 0 no reading may be negative. |
| RateLimit.WithinByClock | src/intern_trading_game/services/order_validation.py:222-237 | If no second has more increments than the limit, no interval [n, n + 1) of clock time has. |
| RateLimit.AcceptanceKeepsRate | src/intern_trading_game/domain/exchange/threads_v2.py:30-37 | If no second exceeded the limit before, none does after an acceptance, even if the clock ticks over between check and increment; nor does any interval [n, n + 1) of readings. |
| RateLimit.ClockSetBack | src/intern_trading_game/services/order_validation.py:222-237 | A clock set back shows 0 at 1.5 for a team with an increment at 1.0. |
| Witnesses.MarketSellHidesPair | src/intern_trading_game/domain/exchange/components/orderbook/matching_engine.py:376-402 | A buy at 100, a market sell and a sell at 90: the sides are sorted, one contract could trade, none does. |
| Witnesses.BuyNeverReported | src/intern_trading_game/domain/exchange/components/orderbook/matching_engine.py:408-432 | A market sell takes a buy over an empty book, and the buy's result shows no fill. |
| Witnesses.PairPastBetterAsk | src/intern_trading_game/domain/exchange/components/orderbook/matching_engine.py:373-402 | A buy at 105 and a sell at 100 pair off at 100 past a resting ask of 90, which stays. |
| Witnesses.ReusedIdNotConserved | src/intern_trading_game/domain/exchange/venue.py:302-328 | A whole run: a partly filled order is cancelled and its id used again, and the id is not conserved. |
| Witnesses.SelfTradeDrifts | src/intern_trading_game/domain/positions/threads.py:12-44 | In the same run a team trades with itself: it bought as much as it sold, and the tracker puts one contract on its position. |
| RateLimit.RateWindows.GetOrderCount | src/intern_trading_game/services/order_validation.py:222-237 | On a clock that never goes back, the number of the team's increments since the last whole clock reading; never too many on any clock. |
| RateLimit.RateWindows.IncrementOrderCount | src/intern_trading_game/services/order_validation.py:262-275 | One more increment for that team and no other. |
| Validation.Check | src/intern_trading_game/domain/exchange/validation/order_validator.py:103-278 | Each constraint is checked as it is meant, with a missing limit as infinity, quote orders a kind of their own, and an unregistered type passed over. |
| Validation.SatisfiedExactly | src/intern_trading_game/domain/exchange/validation/order_validator.py:103-278 | Every constraint against the position service: the limits hold exactly if its table, updated by the order filled in full, has the position within plus or minus the limit, or the total within the limit; the others by size, rate, kind (market without a price, unless a quote), instrument and price. |
| Validation.ValidateOrder | src/intern_trading_game/domain/exchange/validation/order_validator.py:386-410 | Accepts exactly the orders that satisfy every constraint, and otherwise names the first one violated. |
| Validation.OrderValidationService.HandleNewOrder | src/intern_trading_game/domain/exchange/threads_v2.py:30-37 | Accepts exactly by the true count of the second and the positions held, and counts exactly the accepted. Accepted, the position after a full fill is within every position limit of the role; refused with a code only position limits carry, it is beyond one of them with that code. A role without configuration accepts all. |
| Validation.OrderValidationService.FillAccepted | src/intern_trading_game/domain/exchange/validation/order_validator.py:103-168 | Validation followed by a full settlement through the position service: the team ends within every position limit and every portfolio limit of its role. |
| Validation.OrderValidationService.RunValidator | src/intern_trading_game/domain/exchange/threads_v2.py:247-285 | With one validator thread, every team whose roles carry a rate limit has no more orders accepted in any clock interval [n, n + 1) than its own limit, whatever limits the other teams have or have not. The increments are exactly the accepted orders. |
| Coordination.StepKeepsInv | src/intern_trading_game/domain/exchange/response/coordinator.py:165-214 | Every locked section of every thread, with active-only status updates, keeps the coordinator's invariant. |
| Coordination.RunKeepsInv | src/intern_trading_game/domain/exchange/response/coordinator.py:165-214 | Under every interleaving: never more pending requests than allowed, and a pending request is completed exactly if a success is stored for it, failed exactly if a failure is, and signalled exactly if either is. |
| Coordination.RegisterOutcome | src/intern_trading_game/domain/exchange/response/coordinator.py:165-214 | Registration fails exactly when shutting down or full, and otherwise gives an id never used before. |
| Coordination.LaterNotificationsIgnored | src/intern_trading_game/domain/exchange/response/coordinator.py:368-416 | Once a request is completed, by a notification or the shutdown, no later notification changes anything. |
| Coordination.CompletedOnce | src/intern_trading_game/domain/exchange/response/coordinator.py:368-416 | Every completion in a run was made by one step: the first notification of a request then still active, with that answer, or the shutdown, with a failure. |
| Coordination.NotifyOutcome | src/intern_trading_game/domain/exchange/response/coordinator.py:368-416 | A notification of an active request stores that answer, sets the status its success says and signals; of a completed one it changes nothing and succeeds; of an unknown one it fails. |
| Coordination.WakeOutcome | src/intern_trading_game/domain/exchange/response/coordinator.py:283-298 | A woken waiter gets the first completion of its own request, or an error exactly if the request was purged; never a KeyError. |
| Coordination.DeliveredWasSaid | src/intern_trading_game/domain/exchange/response/coordinator.py:283-298 | What an API call is told was said of its own request while that was active and had no answer yet: by the first notification, or a failure by the shutdown. |
| Coordination.ShutdownFailsActive | src/intern_trading_game/domain/exchange/response/coordinator.py:685-713 | A request active when the shutdown begins can afterwards only be delivered a failure, whatever is notified in between. |
| Coordination.WaitOutcomes | src/intern_trading_game/domain/exchange/response/coordinator.py:258-327 | A wait begins exactly on a pending request; one that gives up takes its request away and leaves the results alone. |
| Coordination.CleanupOutcome | src/intern_trading_game/domain/exchange/response/coordinator.py:564-595 | A cleanup keeps exactly the requests that are neither expired nor both completed and aged; their results go with them, others stay, and only expired ones are signalled. |
| Coordination.AtMostOneDelivery | src/intern_trading_game/domain/exchange/response/coordinator.py:283-298 | No result is delivered twice in a run, and what is delivered is the first completion. |
| Coordination.NobodyLeftAsleep | src/intern_trading_game/domain/exchange/response/coordinator.py:276-298 | Nobody sleeps on a request that was answered or removed. |
| Coordination.OrphansTimedOut | src/intern_trading_game/domain/exchange/response/coordinator.py:318-327 | A stored result without a pending request belongs to a wait that timed out. |
| Coordination.OrphanedExactly | src/intern_trading_game/domain/exchange/response/coordinator.py:318-327 | In every state of every run, a result is stored without a pending request if and only if the wait for it gave up and is back from the lock, the request was completed meanwhile, and neither a cleanup nor the final clear has taken it. |
| Coordination.LateNotificationIsOrphaned | src/intern_trading_game/domain/exchange/response/coordinator.py:318-327 | A notification between a timeout and its return to the lock is answered as a success and leaves its result behind for nobody. |
| Coordination.UpdateInStepIff | src/intern_trading_game/domain/exchange/response/coordinator.py:456-488 | A status update of an active request writes that status, and keeps status, event and result in step if and only if the new status is an active one. |
| Coordination.ClosedStaysEmpty | src/intern_trading_game/domain/exchange/response/coordinator.py:680-730 | After the final clear both maps stay empty for ever, whatever still happens. |
| Coordinators.OrderResponseCoordinator.RegisterRequest | src/intern_trading_game/domain/exchange/response/coordinator.py:165-214 | One registration step on the real maps; the new request is pending, with its team, its registration time and its deadline. |
| Coordinators.OrderResponseCoordinator.FinishWait | src/intern_trading_game/domain/exchange/response/coordinator.py:283-298 | One wake-up step: the result is taken and both entries deleted, and the deletion never misses its key. |
| Coordinators.OrderResponseCoordinator.AbandonWait | src/intern_trading_game/domain/exchange/response/coordinator.py:318-327 | One give-up step: the request is marked timed out and goes, even if completed meanwhile. |
| Coordinators.OrderResponseCoordinator.NotifyCompletion | src/intern_trading_game/domain/exchange/response/coordinator.py:368-416 | One completion step: status, stored result, order id and event change together, or nothing does. |
| Coordinators.OrderResponseCoordinator.UpdateStatus | src/intern_trading_game/domain/exchange/response/coordinator.py:456-488 | Any status is written to an active request, as one update step; the coordinator stays valid exactly when the status is an active one or nothing is written. |
| Coordinators.OrderResponseCoordinator.CleanupCompletedRequests | src/intern_trading_game/domain/exchange/response/coordinator.py:514-595 | The two cleanup loops keep exactly the requests that are before their deadline and, if completed, not older than the retention; the others go with their results, those at or past their deadline are signalled, and the count is returned. |
| Coordinators.OrderResponseCoordinator.BeginShutdown | src/intern_trading_game/domain/exchange/response/coordinator.py:680-713 | Every active request ends in error with a stored failure and a set event; the others keep their results. |
| Coordinators.OrderResponseCoordinator.FinishShutdown | src/intern_trading_game/domain/exchange/response/coordinator.py:722-730 | Both maps are emptied. |

## Left out

- Venues.ExchangeVenue.SubmitOrder: each venue operation is taken as atomic. Neither the venue nor the books have a lock in the source, where the validator thread cancels while the matching thread submits and polls.
- Venues.ExchangeVenue.CancelOrder: the books are asked in an arbitrary order.
- BatchEngines.RandomizeSamePrice: any tie-break is allowed; the equal probability of each is not stated.
- BatchEngines.BatchMatchingEngine.ExecuteBatch: requires held orders to be new to their book, which `HeldIsReady` proves for every reachable state and the venue for every call, instead of raising the duplicate-id error halfway.
- Coordination.StepKeepsInv: assumes status updates to active statuses only and one waiter per request; two waiters on one request can make the deletion of its entry miss.
- Coordinators.OrderResponseCoordinator.CleanupCompletedRequests: reads the clock once per cleanup, while the source reads it again for each request; the state machine allows any set of expired requests.
- RateLimit.AcceptanceKeepsRate: one validator thread; two threads can both check before either counts.
- ExchangeSettlement.SettleRun: the tracker's catch-all exception handler is not modelled; no step of it can fail in the model.
- Positions never exceeding the limit is claimed for one order filled in full (`FillAccepted`), not over a run: validation ignores resting orders.
- Request timeouts as durations, processing metrics, stages and the formatting of responses.
- Fees, liquidity types, execution reports and the WebSocket messages.
- The phase manager's calendar, configuration loading, HTTP endpoints, authentication and thread start-up.
- `update_quantity` of a price level, `best_bid`, `best_ask` and market summaries: single reads or unused.
- Rounding of floats and the penny check on construction: prices are integers here.
- Liveness of threads: only safety is proved, with the coordinator's locked sections taken as atomic.
