# Verified model of the codicis matching venue

A Dafny model of the parts of codicis that decide what trades, what the market is told, and who may
trade: the limit order book and its matcher, the market-data feed and its replica, the
report-before-place trading engine, and the credential cache with its helper pool.  Objects that the
C++ code updates in place are classes here (`Ladder`, `RestingBook`, `OrderBook`, `MatchingEngine`,
`BookReplica`, `Buffer`, `FeedReader`, `FeedPublisher`, `TradingEngine`, `PullWindow`, `TokenCache`,
`AuthClient`).  Each of their methods is proved against a function on values, and the theorems about
whole runs are proved about those functions.  `dafny verify dfyconfig.toml` verifies the project.

## How it is built

- **Book.**  `BookCore` defines the resting book as a value (`Core`): the id index, one FIFO of ids per
  side and price, displayed counters, pegs, positions, events.  `Matching` defines price-time matching
  on it, `PriceTime` the textbook special case, and `Walks` what it leaves over, from quantities alone.
  `Sessions` defines the whole book (`State`: also parked stops and auction queues) and every public
  operation as `Apply`.  `Ladders`, `RestingBooks` and `OrderBooks` are the objects; their loops are
  proved to compute these functions.
- **Promises.**  `Guarantees` says what submit promises, `Injections` what fired stops and auction
  remainders do, `PegRules` what becomes of pegs, `StopRules` of parked stops, `Notices` of those
  that fire, and `Cancels` of what is cancelled.  `Executions` says who takes part in an operation's
  executions, what the market is told of them, and what they make the last price.  `Counterexamples`
  holds the runs on which the documentation is wrong.
- **Whole runs.**  `Traces` and `OpTraces` show that every operation is a sequence of elementary changes
  (an order joins, leaves, shifts, is filled, ...).  What each elementary change keeps therefore holds
  after every run (`Accounting`, `Replica`, `Runs`, `StopRules`, `ReduceOnlyAccounts`, `Ledgers`).
- **Feed.**  `FeedWire`, `Buffers`, `FeedStreams`, `FeedReplicas`, `Engines` and `MatchingEngines` follow
  an event from the book through numbering, encoding, dropping, chunking and decoding to the replica;
  `Engines.BookToReplica` puts the chain together.
- **Trading engine.**  `Trading` is the protocol as a state machine whose steps may interleave in any
  order; `TradingEngines` carries the steps out on the real matching engine.  `Handles` says who may
  cancel what.  `Pulls` is the race of cancels with level pulls in a bounded window.
- **Credentials.**  `TokenCaches` (an intrusive doubly linked list with an index) and `Auth` /
  `AuthClients` (coalesced waiters on a bounded helper pool); `Verdicts` traces every answer back to the
  reply it comes from.

Prices and quantities are mathematical integers; where the wire format fixes a width it is explicit
(`FeedWire`).  Clock readings, write results, storage replies, helper replies and generated UUIDs are
parameters.

What callers owe, as the source demands it: order ids are unique (include/codicis/core/order_book.h:146;
a book checks its resting and parked orders, not its auction queues, so `Admissible` asks for it there),
an iceberg's display quantity is not negative (`Counterexamples.NegativeDisplayNeverEnds`), and a helper
or storage reply answers an outstanding request.

## Where code and documentation differ

The model follows the code.  Each difference is a run from the empty book in `Counterexamples`, with the
exact condition beside it.

- All-or-none and fill-or-kill are documented as never filling partially.  Screening counts all-or-none
  makers that the matcher passes over when their turn comes, and own makers that self-trade prevention
  withdraws or halts at; so a fill-or-kill order can fill partially (`FillOrKillPartialFill`, five books).
  `Guarantees.AllOrNoneFillsIff` gives the exact condition for every book, order and policy: the walk of
  `Walks.Walk` leaves nothing.  `Guarantees.FreeLiquidityFills` is a simple sufficient condition, and
  `Walks.LevelInOnePass` the walk over a level in closed form.
- Cancel-aggressor is documented as cancelling the incoming remainder.  A fired stop, and likewise an
  auction remainder, is injected ignoring the halt and rests, which can leave the book crossed
  (`FiredStopCrossesBook`).  `Injections.InjectUncrossedIff` says exactly when, and over runs in which
  no injection does it the book is never crossed (`Runs.UncrossedAfterCleanRun`).
- The auctions are documented as choosing a price that maximises executed volume.  Market orders alone,
  in a book that never traded, find no price and are dropped although they could trade at any
  (`MarketAuctionFindsNoPrice`); `Auctions.ClearingPriceMaximisesVolume` is the exact condition.
- Pegs are documented as re-placed after a change of the best prices.  A stop that fires on entry, and
  an auction without executions, return without doing so (`StalePegAfterStop`, `StalePegAfterAuction`).
  Every other operation leaves each peg at its price, and `PegRules.ApplyPegsIff` says when those two do:
  the last order they let in settles in place.  For orders that meet nobody that is a condition on the
  book before the call (`PegRules.QuietEntryPegsIff`, `PegRules.QuietAuctionPegsIff`); for orders that
  trade it is one on the book their match leaves (`PegRules.InjectPegsIff`).
- Listing a level by rank is documented as giving its queue.  A fired stop and an auction remainder keep
  the rank they were accepted with, and join the back of their level all the same
  (`UnrankedAfterAuction`).  `OpTraces.InjectRankedIff` says exactly when that breaks the order, and over
  runs in which no injection does it the queues are in order of rank (`Runs.RankedAfterOrderlyRun`).
- A level's displayed quantity is documented as what is shown.  Replenishing an iceberg adds its slice
  to the counter even if the order is hidden (`HiddenIcebergCounterDrifts`); `Accounting.FillLitExactIff`
  is the exact condition.

## Model

| member | source | states |
|---|---|---|
| `OrderTypes.Normalize` | src/core/order.cc:10-27 | fill-or-kill becomes immediate-or-cancel and all-or-none, good-till-crossing becomes good-till-cancel and post-only, unset leaves and display quantity become the order quantity, and nothing else changes |
| `Ladders.Ladder.Touch` | src/core/order_book.cc:118-131 | covering a new price, growing left or right, keeps the contents of every level |
| `Ladders.Ladder.Store` | src/core/order_book.cc:769-776 | writing one covered level changes that level only and, once its quantity shrinks, the cached best is wrong at most at that price |
| `Ladders.Ladder.OnAdded` | src/core/order_book.cc:142-148 | after quantity was added, a valid cached best is again the true best |
| `Ladders.Ladder.OnRemoved` | src/core/order_book.cc:151-155 | after a level may have emptied, a valid cached best is again the true best |
| `Ladders.Ladder.Grow` | src/core/order_book.cc:769-777 | touching a price, writing its level and updating the cache leaves every other level alone and the cached best true |
| `Ladders.Ladder.Shrink` | src/core/order_book.cc:1588-1596 | quantity leaving a level keeps every other level and a true cached best |
| `Ladders.Ladder.Best` | src/core/order_book.cc:162-190 | returns the best populated price, or none exactly when no level holds quantity; the refreshed cache is right |
| `BookCore.RestInv` | src/core/order_book.cc:769-791 | resting an order keeps every resting id once in the queue of its own side and price, with positive leaves and a legal slice |
| `BookCore.WithdrawInv` | src/core/order_book.cc:1577-1597 | taking an order out keeps the representation invariant |
| `BookCore.MoveInv` | src/core/order_book.cc:1027-1049 | moving a peg keeps the representation invariant |
| `BookCore.HitInv` | src/core/order_book.cc:531-587 | an execution keeps the representation invariant, whether the maker leaves, replenishes to the back, or stays |
| `BookCore.TotalPositive` | src/core/order_book.cc:479-593 | a level has positive total exactly when its queue is not empty, so the total tests in the loops are emptiness tests |
| `BookCore.HitTotals` | src/core/order_book.cc:547-557 | an execution changes the summed leaves of its own level by the fill and of no other level |
| `Matching.NextSound` | src/core/order_book.cc:479-644 | the maker acted on rests opposite the aggressor at an acceptable price and is not a passed-over all-or-none order |
| `Matching.ActInv` | src/core/order_book.cc:492-587 | acting on a maker keeps the invariant and strictly decreases the termination measure |
| `Matching.MatchAllInv` | src/core/order_book.cc:601-644 | matching to the end keeps the invariant and stops only when the aggressor is filled, halted or out of makers |
| `Matching.RemainderBlocked` | src/core/order_book.cc:479-644 | if matching ends with a remainder and was not halted by self-trade prevention, every maker left at an acceptable price is all-or-none and larger than the remainder |
| `Matching.MatchAllEvolves` | src/core/order_book.cc:479-644 | matching changes makers only in leaves, filled and rank, adds no resting order, and keeps the aggressor's terms |
| `Matching.ActStep` | src/core/order_book.cc:485-587 | one acting turn of the level loop leaves the final outcome of matching unchanged and keeps what was passed over passed over |
| `PriceTime.MatcherIsPriceTime` | src/core/order_book.cc:479-644 | with no all-or-none maker and self-trade prevention off, the matcher produces exactly the textbook result: best acceptable price, queue front, iceberg slices to the back; same trades, same remainder, same book |
| `PriceTime.NextIsFront` | src/core/order_book.cc:479-644 | in such a book the next maker is the front of the best acceptable queue |
| `Executions.MatchAtMakers` | src/core/order_book.cc:531-563 | every execution of a match is for a positive quantity, at the price of a resting contra order within the aggressor's limit widened by its discretion band, and of another account unless self-trades are allowed |
| `Executions.MatchReachesBand` | src/core/order_book.cc:601-644 | and if a remainder is left without a halt, every contra order still within the limit and the band is all-or-none and too large |
| `Executions.AcceptsIff` | src/core/order_book.cc:400-406 | a price is within reach of an aggressor exactly when it is a market order, or the price does not exceed its limit by more than its discretion band, on either side |
| `Executions.OwnMakersFate` | src/core/order_book.cc:495-522 | cancel-aggressor leaves the account's own resting orders alone, cancel-both takes one out exactly when it halts the aggressor, cancel-resting never halts |
| `Executions.CancelRestingClears` | src/core/order_book.cc:495-522 | with cancel-resting, a remainder has no order of its own account left within reach |
| `RestingBooks.RestingBook.constructor` | src/core/order_book.cc:319-331 | a new book shows the empty book |
| `RestingBooks.RestingBook.PrintTrade` | src/core/order_book.cc:537-563 | trade event, last price, both positions and the maker's reservation are those of the specified execution |
| `RestingBooks.RestingBook.SettleMaker` | src/core/order_book.cc:565-587 | a filled maker is dropped, an exhausted iceberg replenished with a fresh rank, any other kept |
| `RestingBooks.RestingBook.Execute` | src/core/order_book.cc:531-587 | one execution on the real ladder is the specified one, and the iterator stands where the loop expects it |
| `RestingBooks.RestingBook.TakeOut` | src/core/order_book.cc:502-514 | a maker removed without a fill leaves index, queue, totals, displayed counter and reservation exact |
| `RestingBooks.RestingBook.ActOn` | src/core/order_book.cc:495-587 | self-trade prevention or execution at a queue position equals the specified action on that maker |
| `RestingBooks.RestingBook.Visit` | src/core/order_book.cc:483-587 | one turn of the level loop keeps the final outcome, passing over blocked makers only |
| `RestingBooks.RestingBook.WalkLevel` | src/core/order_book.cc:481-588 | the iterator loop with its progress flag terminates and leaves only blocked makers at the price |
| `RestingBooks.RestingBook.MatchLevel` | src/core/order_book.cc:479-593 | matching one level keeps the final outcome and a true cached best |
| `RestingBooks.RestingBook.MatchSide` | src/core/order_book.cc:601-644 | the ladder walk in either direction computes exactly the price-time specification, trade list, remainder, halt and book |
| `RestingBooks.RestingBook.AvailableFill` | src/core/order_book.cc:427-462 | the early-stopping walk returns the summed leaves at all acceptable prices, capped at the order's leaves |
| `RestingBooks.RestingBook.WouldCross` | src/core/order_book.cc:409-420 | true exactly when some resting contra order is at an acceptable price |
| `RestingBooks.RestingBook.ReduceOnlyCapacity` | src/core/order_book.cc:379-387 | the reducible quantity of the account on that side |
| `RestingBooks.RestingBook.RestOrder` | src/core/order_book.cc:769-791 | resting on the real ladder is the specified rest, with exact levels and a true cached best |
| `RestingBooks.RestingBook.Erase` | src/core/order_book.cc:1577-1597 | removing a resting order from the real ladder is the specified withdrawal |
| `RestingBooks.RestingBook.MovePegged` | src/core/order_book.cc:1027-1049 | moving a peg between two real levels is the specified move |
| `RestingBooks.RestingBook.HasNonPeg` | src/core/order_book.cc:942-950 | true exactly when a non-pegged order rests at the price |
| `RestingBooks.RestingBook.FindReference` | src/core/order_book.cc:937-968 | the scan returns the best price over non-pegged orders |
| `RestingBooks.RestingBook.ComputePegPrice` | src/core/order_book.cc:976-1020 | the peg price from the two reference prices, offset, cap and positivity |
| `RestingBooks.RestingBook.RepricePegs` | src/core/order_book.cc:1057-1077 | the loop over sorted pegs is the specified repricing pass |
| `RestingBooks.RestingBook.Inject` | src/core/order_book.cc:882-887 | an activated order is matched and its remainder rested, also after a self-trade halt |
| `RestingBooks.RestingBook.MatchAndRest` | src/core/order_book.cc:1441-1453 | a submitted order is matched and its remainder rested unless discarded or halted |
| `RestingBooks.RestingBook.RestPegged` | src/core/order_book.cc:1365-1370 | a pegged order rests and is remembered for repricing |
| `RestingBooks.RestingBook.Emit` | src/core/order_book.cc:923-923 | a trigger marker changes nothing but the event stream |
| `RestingBooks.RestingBook.PrintCross` | src/core/order_book.cc:1206-1218 | an auction execution moves both positions and emits one trade event |
| `Liquidity.MatchExecutesFree` | src/core/order_book.cc:427-462 | when every reachable all-or-none maker is too large and none is the aggressor's own, matching executes exactly the reachable quantity that is not all-or-none |
| `Liquidity.MatchExecutesAvailable` | src/core/order_book.cc:427-462 | when no reachable maker is all-or-none or self-trading, matching executes exactly what available_fill reports |
| `Liquidity.FreeSuffices` | src/core/order_book.cc:479-644 | if as much as the aggressor asks for is not all-or-none and nothing in reach is its own, it fills completely, whatever all-or-none makers of whatever size are in reach too |
| `Liquidity.MatchConserves` | src/core/order_book.cc:547-550 | what the aggressor loses in leaves it gains in filled |
| `Walks.MatchLeaves` | src/core/order_book.cc:479-644 | for every book and aggressor, with all-or-none makers, icebergs and own orders in any mixture and under every self-trade policy, what matching leaves and whether it was halted is what a walk over quantities computes before the match |
| `Walks.LevelStep` | src/core/order_book.cc:481-588 | acting on one maker of a level does not change what the walk over that level will have left in the end |
| `Walks.LevelInOnePass` | src/core/order_book.cc:481-588 | closed form of a level where no own order cancels the aggressor: without all-or-none icebergs, one pass in queue order decides every all-or-none maker, then the icebergs' reserves serve what is left |
| `Walks.LevelHalts` | src/core/order_book.cc:481-588 | closed form of a level where one does: what one pass over the offers before the first own order leaves is cancelled |
| `Guarantees.PostOnlyNeverTakes` | src/core/order_book.cc:1377-1382 | a continuous post-only order never trades on entry |
| `Guarantees.PostOnlyRefusedIff` | src/core/order_book.cc:1377-1382 | a valid post-only order is refused for crossing if and only if a contra order rests at its limit or better, its discretion band counted |
| `Guarantees.RefusedTradesNothing` | src/core/order_book.cc:1285-1439 | a refused order trades nothing, and apart from the number it was given the whole book (orders, queues, stops, positions, events) is as it was |
| `Guarantees.SubmitExecutes` | src/core/order_book.cc:1406-1460 | every accepted continuous order executes exactly what the walk over the book before the call takes from it, or nothing if it is all-or-none and not fully available |
| `Guarantees.AllOrNoneFillsIff` | src/core/order_book.cc:1406-1424 | an all-or-none or fill-or-kill order that is refused or not fully available does not trade; any other fills completely if and only if the walk over the book leaves nothing of it |
| `Guarantees.FreeLiquidityFills` | src/core/order_book.cc:1406-1424 | the walk leaves nothing whenever the full size is free of all-or-none conditions and nothing in reach is the account's own |
| `Guarantees.BlockedLiquidityFills` | src/core/order_book.cc:1406-1424 | when every all-or-none maker in reach is too large and none is the account's own, the walk leaves exactly what is not free |
| `Guarantees.AllOrNothing` | src/core/order_book.cc:1406-1424 | without all-or-none or own makers in reach, a submitted all-or-none order trades its full size or nothing |
| `Guarantees.MinQuantityFillsIff` | src/core/order_book.cc:1426-1439 | an accepted order with a minimum quantity meets it if and only if the walk takes that much, which it always does without all-or-none or own makers in reach |
| `Guarantees.MinQtyBeyondRefused` | src/core/order_book.cc:1424-1432 | a minimum beyond the order's own quantity is refused as such, whatever the book holds, and nothing else is |
| `Guarantees.RestingReported` | src/core/order_book.cc:1400-1452 | an accepted new order that rests is reported with its id, side, price and account, with what was executed and what is left adding up to its quantity; a reduce-only order is cut to what its position, less what it already offers to reduce, leaves to reduce |
| `Guarantees.AvailableIsAccepted` | src/core/order_book.cc:1406-1441 | a valid order with only its size to screen is accepted once that size is available |
| `Guarantees.PassiveOrderRests` | src/core/order_book.cc:1441-1460 | in a book without pegs an order that meets nobody joins the back of its level, and nothing else changes |
| `Counterexamples.FillOrKillPartialFill` | src/core/order_book.cc:1406-1424 | the all-or-none promise is false in general: on books reached from the empty one, a submitted fill-or-kill bid for 5 fills 3 before or behind an all-or-none offer, and next to an own offer under each self-trade policy |
| `Counterexamples.FiredStopCrossesBook` | src/core/order_book.cc:877-887 | the cancel-aggressor promise is false for fired stops: in a run from the empty book a stop halted by its account's own offer rests at the offer's price |
| `Counterexamples.HiddenIcebergCounterDrifts` | src/core/order_book.cc:565-580 | a run from the empty book after which a displayed counter is not the sum of what its level shows |
| `Counterexamples.NegativeDisplayNeverEnds` | src/core/order_book.cc:531-587 | against an iceberg with a negative display quantity, rested in the empty book, the matching loop makes any bid that reaches it larger at every turn and never ends |
| `Counterexamples.MarketAuctionFindsNoPrice` | src/core/order_book.cc:1166-1169 | two market-on-open orders submitted to an empty book could trade at every price, and the opening auction drops them unexecuted |
| `Counterexamples.StalePegAfterStop` | src/core/order_book.cc:1338-1354 | a run from the empty book after which a pegged order is not at its price: a stop that fired on entry became the best bid |
| `Counterexamples.StalePegAfterAuction` | src/core/order_book.cc:1231-1246 | a run from the empty book after which a pegged order is not at its price: an auction without executions let in a new best bid |
| `Counterexamples.UnrankedAfterAuction` | include/codicis/core/order.h:129-137 | a run from the empty book after which a level's queue is not in order of rank: an auction remainder joined behind an order accepted after it |
| `Pegs.MoveKeepsReference` | src/core/order_book.cc:937-968 | moving a pegged order never changes either reference price |
| `Pegs.PegPriceIff` | src/core/order_book.cc:976-1020 | a peg has price p if and only if p is positive and is its reference (the best non-pegged price of its own side, of the other side, or the point halfway) plus its offset, a bid no higher and an offer no lower than its cap |
| `Pegs.RepriceAllReachesPegs` | src/core/order_book.cc:1051-1077 | after one pass every pegged order whose price is computable rests at that price |
| `Pegs.RepriceAllIdempotent` | src/core/order_book.cc:1051-1077 | a second pass changes nothing |
| `Pegs.RepriceAllInv` | src/core/order_book.cc:1057-1077 | repricing keeps the invariant, the set of orders and the set of pegs |
| `PegRules.PegsAtIff` | src/core/order_book.cc:1051-1077 | every computable peg is at its price exactly when a repricing pass would change nothing |
| `PegRules.InjectPegsIff` | src/core/order_book.cc:882-887 | a fired stop or auction remainder leaves every computable peg at its price if and only if, on the book its match leaves, the pegs are where the two reference prices put them once its remainder, if any rests, has joined |
| `PegRules.PassiveEntersIff` | src/core/order_book.cc:882-887 | for one that meets nobody, on the book before it enters |
| `PegRules.EntryStopPegsIff` | src/core/order_book.cc:1338-1354 | a stop that fires on entry, with the cascade it sets off, leaves every computable peg at its price if and only if the last order injected meets that condition |
| `PegRules.EntryStopExecutes` | src/core/order_book.cc:1340-1348 | a stop fired on entry reports as executed exactly what the walk over the book before the call takes from it, and as resting exactly that something is left and not discarded |
| `PegRules.QuietEntryPegsIff` | src/core/order_book.cc:1338-1354 | for one that meets nobody and sets off no parked stop, if and only if on the book before the call every peg is where the reference prices put it once the stop has joined, or as it is if the stop is discarded |
| `PegRules.CrossesNothingIff` | src/core/order_book.cc:1243-1246 | an auction returns no execution exactly when its queue has no clearing price and no surviving order would take anything from the book it enters |
| `PegRules.TradelessAuctionPegsIff` | src/core/order_book.cc:1231-1246 | such an auction leaves every computable peg at its price if and only if the last surviving order to enter meets the condition of InjectPegsIff; if none survives, if they were so before |
| `PegRules.QuietAuctionPegsIff` | src/core/order_book.cc:1231-1246 | for one whose survivors meet nobody, if and only if on the book before the call every peg is where the reference prices put it once all survivors have joined |
| `PegRules.ApplyPegsIff` | src/core/order_book.cc:1338-1460 | with the pegs at their prices, every operation leaves them so, except exactly a stop fired on entry or an auction without executions whose last injected order does not |
| `PegRules.PegsThroughoutIff` | src/core/order_book.cc:1051-1077 | over a run, every computable peg is at its price in every state if and only if every operation of the run is of that kind |
| `Ordering.Sort` | src/core/order_book.cc:910-913 | lists exactly the given ids in increasing order of the comparator |
| `Ordering.SortedUnique` | src/core/order_book.cc:1060-1063 | for a strict total order the sorted listing is unique, so the result does not depend on hash order or sort algorithm |
| `Auctions.EligibleQuantity` | src/core/order_book.cc:1103-1120 | the loop computes demand or supply at a price |
| `Auctions.Consider` | src/core/order_book.cc:1140-1165 | after considering a price the running best is the lexicographic best of the prices seen |
| `Auctions.SearchCandidates` | src/core/order_book.cc:1166-1174 | the candidate loop finds the lexicographic best by volume, imbalance, distance to the last price, then lower price |
| `Auctions.FindClearing` | src/core/order_book.cc:1122-1174 | the search returns the clearing price and its volume, or none exactly when no searched price has volume |
| `Auctions.ClearsUnique` | src/core/order_book.cc:1079-1090 | the tie-breaking rules determine the clearing price uniquely |
| `Auctions.ClearingBreaksTies` | src/core/order_book.cc:1135-1164 | among the searched prices of greatest volume the clearing price leaves the smallest surplus, then is nearest the last price, then is the lowest |
| `Auctions.CandidateDominates` | src/core/order_book.cc:1122-1135 | every integer price has a submitted limit price with at least its volume |
| `Auctions.ClearingPriceMaximisesVolume` | src/core/order_book.cc:1079-1174 | the auction executes the greatest volume any integer price allows if and only if some queued order has a limit, the book has a last price, or nothing can trade |
| `Auctions.SearchedMaximises` | src/core/order_book.cc:1122-1174 | as long as a price is searched at all, no integer price has more volume than the auction executes, although only submitted limits are searched |
| `Crossing.CrossExecutesVolume` | src/core/order_book.cc:1196-1226 | walking the two sorted sides executes exactly the remaining volume, each execution within both limits |
| `Crossing.AuctionExecutesVolume` | src/core/order_book.cc:1176-1229 | the auction executes exactly its clearing volume, all at the clearing price, each order giving up exactly what it traded |
| `Crossing.AuctionFollowsPriority` | src/core/order_book.cc:1177-1190 | on each side market orders fill first, then the higher bid or lower offer, then the earlier arrival: nobody fills while one ahead is unfilled |
| `Crossing.AuctionLeavesNoCross` | src/core/order_book.cc:1190-1228 | after the cross no bid and offer are left that both accept the clearing price |
| `Crossing.AuctionWithinLimits` | src/core/order_book.cc:1190-1228 | every execution of the cross is at the clearing price and within the limit of both orders |
| `Sessions.CascadeInv` | src/core/order_book.cc:889-927 | the stop cascade terminates, keeps the invariant and only appends executions |
| `Sessions.RoundInv` | src/core/order_book.cc:897-925 | a round removes every triggered stop, parks none and re-anchors the others |
| `Sessions.SubmitInv` | src/core/order_book.cc:1285-1478 | submit keeps the invariant of the whole book for every order kind |
| `Executions.SubmitAnnounces` | src/core/order_book.cc:1338-1460 | an order that stays in the book is announced as resting, pending its trigger or held for an auction; pending means parked and held means queued |
| `Sessions.CancelInv` | src/core/order_book.cc:1557-1602 | cancel keeps the invariant of the whole book |
| `Cancels.CancelTakesOut` | src/core/order_book.cc:1557-1602 | after a cancel the id is in none of the stops, the queues and the resting orders, and the answer is true exactly if it was in one; every other parked or queued order is there unchanged and in order, every other resting order unchanged but for pegs that moved |
| `Cancels.ExpireTakesOut` | src/core/order_book.cc:1624-1637 | an expiry takes out exactly the resting orders that have an expiry and have reached it; parked, queued and other resting orders stay, but for pegs that moved |
| `Executions.CancelIsFinal` | src/core/order_book.cc:1557-1602 | over every run after a cancel in which the id is not submitted again, no execution has it as taker or maker and it is nowhere in the book |
| `Sessions.RunAuctionInv` | src/core/order_book.cc:1091-1248 | an auction keeps the invariant of the whole book |
| `Executions.AuctionEmptiesQueue` | src/core/order_book.cc:1231-1241 | an auction empties its queue and leaves the other alone; of the queued orders only limit-on-open and limit-on-close ones can be in the book afterwards |
| `Sessions.ApplyInv` | src/core/order_book.cc:1285-1686 | every public operation keeps the invariant: queues, parked stops, auction queues, pegs and stamps |
| `OrderBooks.OrderBook.constructor` | src/core/order_book.cc:1251-1255 | a new book object is the empty book |
| `OrderBooks.OrderBook.TrailStops` | src/core/order_book.cc:898-906 | the loop over parked stops re-anchors each and collects exactly the triggered ones |
| `OrderBooks.OrderBook.FireStop` | src/core/order_book.cc:914-924 | one triggered stop is announced and injected |
| `OrderBooks.OrderBook.EvaluateStops` | src/core/order_book.cc:896-927 | the object's cascade is the specified cascade |
| `OrderBooks.OrderBook.TradeOrder` | src/core/order_book.cc:1441-1460 | matching, resting, cascade and repricing in that order |
| `OrderBooks.OrderBook.SizeOrder` | src/core/order_book.cc:1406-1439 | all-or-none and minimum-quantity screening with every outcome |
| `OrderBooks.OrderBook.ScreenOrder` | src/core/order_book.cc:1377-1404 | post-only and reduce-only screening with every rejection |
| `OrderBooks.OrderBook.PegOrder` | src/core/order_book.cc:1356-1375 | a pegged order rests at its price or is rejected |
| `OrderBooks.OrderBook.StopOrder` | src/core/order_book.cc:1338-1354 | a stop parks or fires at once |
| `OrderBooks.OrderBook.Submit` | src/core/order_book.cc:1285-1460 | the object's submit returns the specified outcome and leaves the specified book |
| `OrderBooks.OrderBook.RemoveQueued` | src/core/order_book.cc:1564-1572 | finds and removes a queued auction order |
| `OrderBooks.OrderBook.Cancel` | src/core/order_book.cc:1557-1602 | the object's cancel is the specified cancel, for stops, queued and resting orders, and its answer |
| `OrderBooks.OrderBook.Expire` | src/core/order_book.cc:1624-1637 | exactly the expired resting orders are cancelled, in ascending id order |
| `OrderBooks.OrderBook.CrossOrders` | src/core/order_book.cc:1196-1226 | the two-index loop is the specified allocation |
| `OrderBooks.OrderBook.CrossQueue` | src/core/order_book.cc:1097-1229 | clearing search, sorting and allocation give the specified cross |
| `OrderBooks.OrderBook.EnterRemainders` | src/core/order_book.cc:1231-1240 | limit-on-open and limit-on-close remainders enter continuous trading in queue order |
| `OrderBooks.OrderBook.RunAuction` | src/core/order_book.cc:1091-1248 | the object's auction is the specified auction |
| `OrderBooks.OrderBook.SeedPosition` | src/core/order_book.cc:1647-1652 | sets one account's net position |
| `OrderBooks.OrderBook.SetNextSeq` | src/core/order_book.cc:1275-1279 | the sequence counter never goes back |
| `OrderBooks.OrderBook.TakeRequeued` | src/core/order_book.cc:1269-1273 | drains exactly the moved orders |
| `OrderBooks.OrderBook.Perform` | src/core/order_book.cc:1285-1686 | the life of a book object is a run of the specified operations |
| `OrderBooks.OrderBook.QuantityAt` | src/core/order_book.cc:1612-1622 | the stored totals of a level are the sums over its orders and its displayed counter |
| `OrderBooks.OrderBook.BestPrice` | src/core/order_book.cc:1609-1610 | the best populated price of a side |
| `Traces.DoInv` | src/core/order_book.cc:262-325 | every elementary change keeps the representation invariant |
| `Traces.DoGood` | src/core/order_book.cc:479-593 | every elementary change keeps what is known of the book: lit, uncrossed, rank-ordered or owned |
| `Traces.DoReports` | src/core/order_book.cc:260-266 | an order changes rank only by taking a fresh one, and is then the one order added to the list of moved orders |
| `OpTraces.ApplySteps` | src/core/order_book.cc:1285-1686 | every operation is a sequence of elementary changes of the kind its orders belong to |
| `Accounting.FillLitExactIff` | src/core/order_book.cc:551-580 | a fill keeps the displayed counter exact if and only if it does not replenish an iceberg that is also hidden |
| `Accounting.DoLitExact` | src/core/order_book.cc:549-580 | without hidden icebergs no elementary change breaks a displayed counter |
| `Accounting.ShownWithinHeld` | src/core/order_book.cc:769-791 | with exact counters a level shows no more than it holds, nothing if all its orders are hidden, everything if none is hidden or an iceberg |
| `Accounting.IcebergShowsSlice` | src/core/order_book.cc:565-587 | a level whose one order is an iceberg shows some of it and no more than its display quantity |
| `Accounting.DoReserved` | src/core/order_book.cc:355-367 | every elementary change keeps each reservation counter equal to the summed leaves of the account's resting reduce-only orders |
| `Accounting.StepsExact` | src/core/order_book.cc:479-593 | reservation and displayed counters stay exact over every trace |
| `Runs.RunKeepsInvariant` | src/core/order_book.cc:1285-1686 | after any run of operations the invariant holds and every reservation counter is exact |
| `Executions.ApplyPrints` | src/core/order_book.cc:531-563 | every operation: its executions are between orders that were there or that it brings, the events report each of them once and in order, and the last of them sets the last price |
| `Executions.LastPriceFollows` | src/core/order_book.cc:545-546 | after an operation with executions the last price is that of the last of them, after any other it is what it was |
| `Executions.MatchPrints` | src/core/order_book.cc:531-563 | the same of a match: if it adds executions the last price is that of the last of them |
| `Executions.RunTold` | src/core/order_book.cc:531-563 | over every run from the empty book the trade events are exactly the executions, in order, and the last price is that of the last execution |
| `Runs.ReplicaAgreesAfterRun` | src/feed/book_replica.cc:25-103 | after any run, replaying the event stream gives the book: same orders, leaves and matchable depth; without hidden icebergs the same displayed quantities too, and displayed counters are exact |
| `Runs.UncrossedAfterCleanRun` | src/core/order_book.cc:601-644 | without resting all-or-none or pegged orders, every bid is below every ask after every run in which each fired stop and each auction remainder meets the condition of Injections.InjectUncrossedIff |
| `Runs.UncrossedAfterRun` | src/core/order_book.cc:601-644 | every run meets it under the policies that never cancel aggressors, and under the others every run without stops and auction remainders |
| `Injections.InjectUncrossedIff` | src/core/order_book.cc:877-887 | a fired stop or auction remainder, with or without a discretion band, leaves a clean book uncrossed if and only if its remainder is discarded, within its limit it meets no own maker that halts it, or the halt left nothing within its limit |
| `Injections.LimitedFirst` | src/core/order_book.cc:601-644 | an order with a discretion band first does exactly what it would do without one, and then goes on into the band |
| `OpTraces.InjectRankedIff` | include/codicis/core/order.h:129-137 | a fired stop or auction remainder leaves the queues of a book strictly increasing in rank if and only if its remainder is discarded, it is filled, or the level it joins holds only earlier ranks |
| `OpTraces.JoinRankedIff` | src/core/order_book.cc:769-791 | an order that joins a level of such a book keeps it so if and only if everybody in the level has an earlier rank |
| `Runs.RankedAfterOrderlyRun` | include/codicis/core/order.h:129-137 | every queue is strictly increasing in rank after every run in which each fired stop and each auction remainder meets the condition of InjectRankedIff, and the next number exceeds every rank |
| `Runs.RankedAfterRun` | include/codicis/core/order.h:129-137 | every run without stops and auction remainders meets it |
| `Runs.RankSortIsQueue` | include/codicis/core/order.h:129-137 | listing a level's orders by rank reconstructs its queue |
| `Runs.PositionsFollowFills` | src/core/order_book.cc:347-352 | positions move by the signed sum of the account's fills, auction fills included, and by nothing else |
| `StopRules.ApplyStops` | src/core/order_book.cc:856-927 | after every operation no parked stop is triggered at the last price; a trailing stop moved only the favourable way, its anchor the old one or a price the operation printed and never behind the last price, its stop price the trail away; and a stop that left was cancelled, or a printed price reached it from its old anchor or a printed one |
| `StopRules.SubmitParks` | src/core/order_book.cc:837-849 | a submit parks nothing but its own order: a plain stop at its stop price, a trailing one anchored at the last price or, before the first trade, at its own |
| `StopRules.FireOrderIsArrival` | src/core/order_book.cc:911-914 | stops that are triggered together fire in order of arrival |
| `Notices.ApplyNotices` | src/core/order_book.cc:915-927 | every operation announces exactly the parked stops that fire, each once and as it fires; a cancelled stop is not announced |
| `Notices.NoAuctionInBook` | src/core/order_book.cc:1234-1239 | in every state of a run from a book without one, no resting or parked order carries an auction instruction: auction remainders enter without it |
| `StopRules.StopsGoodAfterRun` | src/core/order_book.cc:856-927 | in every state of a run no parked stop is triggered, every trailing sell stop has an anchor at or above the last price and every trailing buy stop one at or below it |
| `ReduceOnlyAccounts.ReducerAfterRun` | src/core/order_book.cc:369-387 | an account that only submits continuous reduce-only orders always has 0 <= reserved <= |net| on the reducing side and nothing on the other; its position only shrinks toward zero and never changes sign |
| `ReduceOnlyAccounts.ReducerFromEmptyBook` | src/core/order_book.cc:369-387 | the same from the empty book: other accounts trade first, the position is seeded, and from then on it only shrinks toward zero from what was seeded |
| `ReduceOnlyAccounts.NoOwnContra` | src/core/order_book.cc:369-387 | while such an order has something left, no contra order of its own account rests |
| `Replica.BumpExact` | src/feed/book_replica.cc:10-23 | bumping a level is exact as long as it does not go negative |
| `Replica.StepsAgree` | src/feed/book_replica.cc:37-103 | replaying the events a trace emitted brings an agreeing replica into agreement again |
| `FeedReplicas.BookReplica.Apply` | src/feed/book_replica.cc:25-103 | the object's state after an event is the specified one, and the gap answer is exact |
| `FeedReplicas.BookReplica.EditBook` | src/feed/book_replica.cc:37-101 | the in-place edits of each event kind equal the specified change of the symbol's book |
| `FeedReplicas.BookReplica.BestOf` | src/feed/book_replica.cc:105-123 | the best price of a side with its quantity, or none exactly when the map is empty |
| `FeedReplicas.BookReplica.DepthOf` | src/feed/book_replica.cc:125-153 | the levels best first, truncated, omitting only worse prices |
| `FeedReplicas.ShareOf` | src/feed/book_replica.cc:37-37 | a symbol's replica is the replay of that symbol's events alone |
| `FeedReplicas.NoGapsIff` | src/feed/book_replica.cc:26-35 | no gap is counted exactly when the applied sequence numbers have no hole |
| `FeedWire.PutUint` | src/feed/feed_wire.cc:14-18 | appends the little-endian bytes of a value |
| `FeedWire.GetUint` | src/feed/feed_wire.cc:21-27 | reads the little-endian value of a byte range |
| `FeedWire.ValLe` | src/feed/feed_wire.cc:14-27 | reading back a written value returns it when it fits |
| `FeedWire.EncodeBookEvent` | src/feed/feed_wire.cc:35-47 | appends exactly the wire record of the event |
| `FeedWire.DecodeBookEvent` | src/feed/feed_wire.cc:49-79 | classifies the head of the bytes as incomplete, malformed or one event |
| `FeedWire.RoundTripIff` | src/feed/feed_wire.cc:35-79 | an event decodes to itself, whatever follows, if and only if its symbol is shorter than 65536 bytes |
| `FeedWire.PrefixIncomplete` | src/feed/feed_wire.cc:51-64 | every strict prefix of a record is incomplete |
| `Buffers.Buffer.Compact` | include/codicis/util/buffer.h:136-143 | compaction keeps the unconsumed bytes |
| `Buffers.Buffer.ReserveTail` | include/codicis/util/buffer.h:115-126 | reserving keeps the unconsumed bytes and makes room |
| `Buffers.Buffer.Append` | include/codicis/util/buffer.h:60-67 | appends at the tail of the byte queue |
| `Buffers.Buffer.Commit` | include/codicis/util/buffer.h:92-92 | takes over the bytes written to the reserved region |
| `Buffers.Buffer.Consume` | include/codicis/util/buffer.h:98-105 | drops bytes from the head, all of them if fewer remain |
| `FeedStreams.FeedReader.DecodeNext` | src/feed/feed_wire.cc:49-79 | decodes the first record and consumes it only when complete |
| `FeedStreams.FeedReader.OnReadable` | tools/feed_helper/main.cc:304-341 | buffering a chunk and decoding until incomplete equals parsing all bytes held |
| `FeedStreams.ChunksDoNotMatter` | tools/feed_helper/main.cc:304-341 | however the bytes are cut into chunks, the reader sees the events of the whole |
| `FeedStreams.StreamDecodes` | src/feed/feed_wire.cc:49-79 | any prefix of an encoded stream decodes to a prefix of its events, the rest being a strict prefix of the next record |
| `FeedStreams.FeedPublisher.OnBookEvent` | src/feed/feed_publisher.cc:56-72 | an event joins the stream whole or is dropped whole and counted; delivered plus buffered bytes are always the survivors' encoding |
| `FeedStreams.FeedPublisher.Flush` | src/feed/feed_publisher.cc:86-105 | whatever the write calls accept, delivered plus buffered bytes stay the same stream |
| `FeedStreams.StreamEndToEnd` | src/feed/feed_publisher.cc:56-72 | what the replica applied is a prefix of the surviving events; if it starts at number one it counted no gap exactly when it applied a prefix of everything published, and its last sequence number says which |
| `Engines.ApplyGrows` | src/core/order_book.cc:267-325 | every operation only appends events, tagged with the book's symbol |
| `Engines.CallOk` | src/core/matching_engine.cc:35-43 | for every operation: one global clock numbers all events consecutively, each symbol's share of the feed is that book's own stream, and that stream replays to the book |
| `Engines.BookToReplica` | src/core/matching_engine.cc:12-43 | book to replica end to end: after any engine run, whatever was dropped and however bytes were cut, a gap-free replica that reached the engine's clock shows every book's orders and matchable depth, and without hidden icebergs its displayed quantities |
| `MatchingEngines.MatchingEngine.Forward` | src/core/matching_engine.cc:35-43 | events are numbered by the global clock in order |
| `MatchingEngines.MatchingEngine.EnsureBook` | src/core/matching_engine.cc:12-26 | a book is created on first use, starting above the sequence base, and no other book changes |
| `MatchingEngines.MatchingEngine.Perform` | src/core/matching_engine.cc:50-124 | an operation reaches exactly its symbol's book and its events are forwarded |
| `MatchingEngines.MatchingEngine.SetSeqBase` | src/core/matching_engine.cc:28-33 | every existing and future book counts from at least the base |
| `Ledgers.OperationAccounted` | src/core/order_book.cc:347-352 | every operation but a seed keeps each position equal to its seed plus its fills |
| `Ledgers.SeedAccounted` | src/core/order_book.cc:1647-1652 | seeding an account without orders keeps the books balanced |
| `Trading.NoOrdersYet` | src/engine/trading_engine.cc:98-119 | while an account's position is being loaded it has no order in that book, so no fill can race the seed |
| `Trading.PlaceSound` | src/engine/trading_engine.cc:249-289 | one turn of drain keeps the protocol invariant and shortens the queue |
| `Trading.AdvanceQuiet` | src/engine/trading_engine.cc:48-320 | every step of every interleaving keeps the invariant and leaves no ready head waiting |
| `Trading.SequencedInOrder` | src/engine/trading_engine.cc:48-84 | after any interleaving the waiting orders are exactly the arrivals not yet sequenced, and each sequenced arrival had one callback, in order |
| `Trading.PlacedInOrder` | src/engine/trading_engine.cc:245-290 | orders reach the book strictly in arrival order, at most once, exactly those reported as stored, and only after a successful acknowledgement |
| `Trading.PositionsBalance` | src/engine/trading_engine.cc:86-119 | at most one seed per account and symbol, before any of its orders; every position is the pulled net (zero on failure) plus the signed sum of its fills |
| `Trading.AssignedIdsAreNew` | src/engine/trading_engine.cc:48-53 | as long as callers leave the numbering to the engine, every id it is about to assign is new, whatever the boot watermarks said and whenever they came |
| `Trading.WatermarksRaise` | src/engine/trading_engine.cc:306-321 | once the boot watermarks are in, every id and rank given out later exceeds them, in books there are and books to come, and nothing else changes |
| `Handles.OwnerCancels` | src/engine/trading_engine.cc:215-241 | at its owner's request the order is nowhere in its book afterwards and its handle is gone; other orders, books, handles and waiting orders stay, but for pegs that moved |
| `Handles.StrangerCancelsNothing` | src/engine/trading_engine.cc:219-224 | without a handle, or at the request of anybody but its owner, nothing changes at all |
| `Handles.OnlyOwnersCancel` | src/engine/trading_engine.cc:215-241 | after any interleaving of steps a cancel takes out no resting order but one of the requester's own account, and a requester who owns no handle changes no book |
| `Handles.PruneIff` | src/engine/trading_engine.cc:291-305 | pruning drops exactly the handles registered for makers of the executions that no longer rest |
| `Handles.HandleGiven` | src/engine/trading_engine.cc:267-275 | a placed order that rests gets a handle under its own uuid, if that is new, naming its symbol, id and owner |
| `Handles.ArrivedWaits` | src/engine/trading_engine.cc:48-84 | an arrival waits under the next number as it came, with an id of its own and the account of its owner; those before it wait as they did |
| `TradingEngines.TradingEngine.Submit` | src/engine/trading_engine.cc:35-84 | the object's submit is the arrival step, under the caller's own unused id or the next assigned one |
| `TradingEngines.TradingEngine.EnsurePosition` | src/engine/trading_engine.cc:86-101 | ready exactly for anonymous or loaded accounts; otherwise a pull is outstanding |
| `TradingEngines.TradingEngine.OnAck` | src/engine/trading_engine.cc:75-82 | a storage verdict is the acknowledgement step, draining included |
| `TradingEngines.TradingEngine.Drain` | src/engine/trading_engine.cc:245-290 | the loop places every ready head in arrival order |
| `TradingEngines.TradingEngine.EnterHead` | src/engine/trading_engine.cc:269-284 | the head order reaches its real book, and handles are registered and pruned as specified |
| `TradingEngines.TradingEngine.PruneFilled` | src/engine/trading_engine.cc:292-304 | handles of makers that left the book are dropped |
| `TradingEngines.TradingEngine.OnPosition` | src/engine/trading_engine.cc:102-118 | a position reply is the seeding step, draining included |
| `TradingEngines.TradingEngine.Cancel` | src/engine/trading_engine.cc:215-243 | only the owner's cancel reaches the book, with every answer |
| `TradingEngines.TradingEngine.RunAuction` | src/engine/trading_engine.cc:382-392 | an auction is the auction step |
| `TradingEngines.TradingEngine.OnWatermarks` | src/engine/trading_engine.cc:306-320 | boot watermarks only raise the id counter and rebase the books |
| `Pulls.CancelledNeverReturns` | src/engine/trading_engine.cc:189-241 | after any interleaving of cancels, operations (fired stops and auction remainders entering the book included) and up to two outstanding pulls with stale snapshots, an order cancelled by handle is never resident again |
| `Pulls.ReplySafe` | src/engine/trading_engine.cc:189-213 | a stale snapshot cannot revive a cancelled order while it is ignored, and nothing needs ignoring once no pull is outstanding |
| `Pulls.PullWindow.EnsureDepth` | src/engine/trading_engine.cc:137-187 | the head order may run exactly when no pull is outstanding, the symbol is warmed and nothing deeper is needed; otherwise two pulls, or one once warmed, are outstanding and the window is still the state of the race |
| `Pulls.PullWindow.OnPull` | src/engine/trading_engine.cc:189-213 | the loop over a pulled batch takes the window to the next state of the race: what is not ignored becomes resident, the last reply clears the ignore set, and no cancelled order is resident |
| `Pulls.PullWindow.OnCancel` | src/engine/trading_engine.cc:215-241 | a cancel takes the window to the next state of the race, in which no cancelled order is resident and no outstanding pull can bring one back |
| `Pulls.PullWindow.OnOperate` | src/engine/trading_engine.cc:254-290 | placing an order takes the window to the next state of the race, in which no cancelled order is resident |
| `Pulls.CancelShields` | src/engine/trading_engine.cc:230-238 | after a cancel no snapshot an outstanding pull may still deliver can bring the order back |
| `Pulls.CancelSafe` | src/engine/trading_engine.cc:215-241 | a cancel keeps every order cancelled earlier shielded as well |
| `TokenCaches.TokenCache.Unlink` | src/auth/token_cache.cc:26-39 | takes one node out of the doubly linked list and leaves the list of the others |
| `TokenCaches.TokenCache.PushTail` | src/auth/token_cache.cc:41-50 | appends a node at the cold end |
| `TokenCaches.TokenCache.Erase` | src/auth/token_cache.cc:52-56 | list, index and byte count stay the same set of nodes |
| `TokenCaches.TokenCache.PurgeExpiredTail` | src/auth/token_cache.cc:58-67 | drops expired entries from the cold end up to the cap |
| `TokenCaches.TokenCache.MakeRoom` | src/auth/token_cache.cc:92-98 | evicts from the cold end until the new entry fits both budgets |
| `TokenCaches.TokenCache.Insert` | src/auth/token_cache.cc:69-109 | the linked structure after an insert holds the specified sequence within both budgets |
| `TokenCaches.TokenCache.Promote` | src/auth/token_cache.cc:121-133 | a hit exchanges two neighbours of the linked list |
| `TokenCaches.TokenCache.Lookup` | src/auth/token_cache.cc:111-136 | the linked structure and the answer after a lookup are the specified ones |
| `TokenCaches.InsertKeepsPrefix` | src/auth/token_cache.cc:69-109 | an insert removes only a suffix of the sequence and any replaced entry; both budgets hold |
| `TokenCaches.InsertEvictsForRoom` | src/auth/token_cache.cc:69-109 | nothing is evicted without need: one entry more would have been expired, one too many, or too large beside the new one |
| `TokenCaches.PurgedExactly` | src/auth/token_cache.cc:58-67 | purging takes away expired entries from the cold end only, at most as many as allowed, and stops short of that only at one that is live |
| `TokenCaches.LookupPromotes` | src/auth/token_cache.cc:111-136 | a hit is unexpired and an adjacent swap; a miss removes at most the expired entry |
| `TokenCaches.SwappedPlaces` | src/auth/token_cache.cc:111-136 | a hit moves its entry one step towards the hot end, past its neighbour, and leaves every other in place |
| `TokenCaches.CacheStaysCurrent` | src/auth/token_cache.cc:69-136 | over every run every cached entry is the latest insert of its key, keys are unique and both budgets hold |
| `Auth.SeekComplete` | src/auth/auth_client.cc:92-102 | no free slot is found exactly when every helper is full |
| `Auth.SeekFirst` | src/auth/auth_client.cc:92-102 | the helper found is the first with a free slot, going round from the cursor |
| `Auth.DrainedInOrder` | src/auth/auth_client.cc:149-159 | queued credentials start in the order they came |
| `Auth.ResolvedSound` | src/auth/auth_client.cc:64-90 | a question keeps the resolver invariant |
| `Auth.RespondedSound` | src/auth/auth_client.cc:114-147 | a helper reply keeps the invariant and leaves nothing queued beside a free slot |
| `Auth.WaitersAnsweredAlike` | src/auth/auth_client.cc:161-174 | all waiters on a credential get the same answer, in order, and nobody else does |
| `Auth.ResolverSafe` | src/auth/auth_client.cc:64-174 | after any run every waiting credential is queued once or in flight once and in neither cache, helpers stay within depth, a non-empty queue means all helpers are full, no credential is in both caches, and no callback fired twice |
| `Verdicts.AnswersComeFromReplies` | src/auth/auth_client.cc:64-147 | over every run from an idle resolver: a callback is called with a permission for user u only because of a reply about its credential with status ok and user u, a UUID, at that reply or on asking while it was the latest reply and live (within the configured time and its not_after); with a denial only because of another reply, at once or while the denial was live, or of a broken one at once; cached entries stem from the latest replies with exactly these lifetimes; nobody who asked is forgotten |
| `Verdicts.RespondedParts` | src/auth/auth_client.cc:114-147 | what a reply does, from its own fields: every waiter is told yes and the user exactly if status is ok and the user is a UUID, a yes goes to the positive cache, a no to the negative one, a broken reply to neither |
| `Verdicts.NanosRoundTrip` | src/auth/auth_client.cc:22-35 | reading the decimal text of a number gives the number |
| `AuthClients.AuthClient.FreeHelper` | src/auth/auth_client.cc:92-102 | the round-robin scan finds the first free helper and moves the cursor past it |
| `Auth.DispatchCounted` | src/auth/auth_client.cc:104-112 | after a dispatch every helper's counter is again the number of its outstanding requests, within its depth |
| `AuthClients.AuthClient.DrainPending` | src/auth/auth_client.cc:149-159 | queued credentials start while slots are free, in order |
| `AuthClients.AuthClient.FanOut` | src/auth/auth_client.cc:161-174 | every waiter is called with the same answer and forgotten |
| `AuthClients.AuthClient.ReadNanos` | src/auth/auth_client.cc:22-35 | reads a decimal number and refuses anything else |
| `AuthClients.AuthClient.Remember` | src/auth/auth_client.cc:118-143 | verdicts are cached with their lifetimes; transport failures are not |
| `AuthClients.AuthClient.OnResponse` | src/auth/auth_client.cc:114-147 | the object's reply handling is the specified step on the real caches |
| `AuthClients.AuthClient.Resolve` | src/auth/auth_client.cc:64-90 | the object's resolve is the specified step on the real caches |

## Left out

- `Sessions.SubmitInv`: does not cover an iceberg with a negative display quantity, because the matching loop then never ends (`Counterexamples.NegativeDisplayNeverEnds`), nor an id that is already queued for an auction, because callers owe unique ids (include/codicis/core/order_book.h:146).
- `OrderBooks.OrderBook.Submit`: does not cover those two inputs either, for the same reasons.
- `TradingEngines.TradingEngine.Submit`: a caller's own id must be unused, as the books behind it demand; the engine itself does not check it.
- `Walks.LevelInOnePass`: does not cover levels with an order that is both all-or-none and iceberg, which is decided anew for every slice; for them `Walks.MatchLeaves` is the statement.
- Linked orders (OCO, OTO, brackets): several paths return before link processing, and nothing else in the book depends on it.
- The bounded window inside the book (`evict_worst`, deep boundaries, `insert_resident`): every book theorem is for the unbounded window; only the cancel race of level pulls is modelled, in `Pulls`.
- Agreement of the durable resting book with memory: it is not decided in general (re-queue reports carry leaves of the moment).
- List iterators kept in the index: a position in a queue is an index here, found by searching the queue where the code follows a stored iterator.
- `Pulls.PullWindow`: models the resident ids, the ignore set and the outstanding pulls of one symbol, not the pulled orders' fields nor how deep a pull reaches.
- Storage reports (trades, fills, rests) of the trading engine: they are writes without effect on the engine; only the order of acknowledgements, position replies and pulls matters.
- Callbacks that call back into the engine or the resolver while it is answering.
- `FeedWire.GetUint`: the code combines bytes with shifts and bitwise or; for distinct byte positions that is the sum used here.
- `AuthClients.AuthClient.ReadNanos`: does not model 64-bit overflow of absurdly long numbers.
- `Auth.ResolverSafe`: a resolver whose helpers have depth 0 never sends anything; the statement covers it, no progress is claimed.
- Event loops, sockets, process spawning, JSON, HTTP, WebSocket, configuration, metrics and logging.
- Memory pools, UUID generation, SHA-1 and Base64.
