# ITCH order book: a verified model

A Dafny model of an engine that replays a TotalView-ITCH 5.0 feed into order books, of the parser in front of it and
of the logger beside it. Verify everything with `dafny verify dfyconfig.toml`.

## What is modelled

**Memory and containers.** `FlatHashMap.dfy` is the open-addressing table from price to level, for any hash function
and any positive capacity; its erase loop is proved to restore every probe chain across the wraparound and to end even
when the table was full. `MemoryPool.dfy` is the fixed pool with its intrusive free list: pointers are slot numbers,
and a released slot can no longer be read as an object, so the order "erase from the index, then release" matters.
`IntrusiveList.dfy` and `PriceLevel.dfy` are the doubly linked lists and the queue of one price level.

**Books.** `BookShape.dfy` says what one instrument's book is as a value: two price-sorted lists of levels, two price
tables that hold exactly those levels, and a queue per level. `VisitOrder.dfy` says in which order its orders are
visited. `OrderBook.dfy` is the class whose methods rewire links, tables and counters in place and are proved to keep
that shape. `OrderIndex.dfy` is the direct array with its overflow map.

**Engine.** `Market.dfy` is the specification: live orders by id, one arrival queue per instrument, side and price, the
counters, and one step per event. Capacities enter it only as numbers. `EngineShape.dfy` and `BookTotals.dfy` state the
global invariant (indexed ids, orders waiting in books and allocated slots are the same orders; the live counters are
exact) and what each change of memory means for the market; `TopOfBook.dfy` reads a book's quotes as prices and shares
of market orders. `MatchingEngine.dfy` is the engine over shared pools, one index and many books; every `on_*` handler
is exactly one market step and keeps the invariant. The code's defensive branches (missing level, missing book, failed
index insert, clamped subtraction) are there and proved unreachable.

**Runs.** `MarketInvariant.dfy`, `MarketRuns.dfy`, `MarketEvents.dfy` and `MarketPriority.dfy` prove what holds of
every run: the invariant, share conservation, event accounting, the outcomes of a replace, closing crosses, peaks and
price-time priority. `MarketOutcomes.dfy` has the exact effect of every order event and the exact condition of every
counter, in terms of ids, shares and capacities only.

**Parser.** `Bits.dfy`, `Endian.dfy`, `WireFormat.dfy` and `Messages.dfy` are byte order, record layouts, decoding and
encoding. `Feed.dfy` says how any buffer splits into frames, what a parse of it counts and delivers; `Parser.dfy` is
the loop with its handlers, proved to do exactly that on any bytes.

**Logger.** `Logger.dfy` is the single-producer single-consumer ring as atomic steps of three threads under sequential
consistency, loads and uses being separate steps; `LoggerRuns.dfy` proves what every interleaving guarantees, and
`LoggerCalls.dfy` that the accepted records are those of the calls.

## Assumptions

- `Admissible` (in `Market.dfy`) is what the engine needs of an add or replace that gets as far as looking up a level: the
  price is not 0xFFFFFFFF, the table's empty key (`include/OrderBook.hpp:143`), and a level that has to be opened fits
  its side's table, since a failed table insert is ignored there (`include/OrderBook.hpp:331-339`).
  `MarketEvents.SmallPoolIsEnough` shows that a level pool no larger than a table is enough for the second part.
- The order pool has fewer than 2^32 slots, so that a level's 32-bit order count cannot wrap.
- The hash function, all capacities and the host's byte order are parameters.

## Where code and comments disagree

The model follows the code.

- The comment above `on_order_replace` (`include/MatchingEngine.hpp:390`) says that any failure leaves the old order
  untouched. It does, unless the level pool is full, the old order is not alone in its level and no level has the new
  price: then the old order is gone and nothing is added. `MarketEvents.ReplaceOutcomes` has the exact conditions and
  `MarketEvents.ReplaceCanLoseItsOrder` a run that gets there.
- For the same reason the heading "Rejected events (book unchanged)" (`include/MatchingEngine.hpp:135`) is not quite true;
  `MarketEvents.RefusalChangesNothing` says exactly when it is.
- `DirectOrderIndex::insert` is said to return false for a duplicate (`include/MatchingEngine.hpp:60`). It does so exactly
  when the id's direct slot is occupied (`OrderIndexes.DuplicateIsRefused`); the engine looks every id up first.
- The overview in `include/WireFormat.hpp:14-18` gives the timestamp bytes 5 to 11; it has the six bytes 5 to 10.

## Model

| member | source | states |
|---|---|---|
| FlatHashMaps.FlatHashMap.Insert | include/OrderBook.hpp:41-62 | overwrites a present key and reports false, adds an absent one and reports true, and changes nothing exactly when the table is full and the key absent; for every hash function and capacity |
| FlatHashMaps.FlatHashMap.Find | include/OrderBook.hpp:65-74 | returns the map's value, or null for an absent key, also in a completely full table |
| FlatHashMaps.FlatHashMap.Erase | include/OrderBook.hpp:77-102 | leaves exactly the old map without the key and a table whose probe chains are all unbroken |
| FlatHashMaps.FlatHashMap.Repair | include/OrderBook.hpp:87-96 | the remove-and-reinsert loop terminates and loses or duplicates no entry, also when the table was full and the scan wraps past the start |
| FlatHashMaps.FlatHashMap.Clear | include/OrderBook.hpp:104-108 | empties the table |
| FlatHashMaps.StopDecides | include/OrderBook.hpp:65-74 | probing ends on the key exactly when the map has it, and exhausts the table only when it is full and the key absent |
| FlatHashMaps.RepairStep | include/OrderBook.hpp:88-96 | with one hole that chains may still cross, reinserting the entry after it puts it back where it was or moves it into the hole, and the set of chains still in doubt shrinks or starts again from the new hole |
| FlatHashMaps.StopsAtHoleOrHere | include/OrderBook.hpp:94-95 | a reinserted entry never lands anywhere but in the hole or its own slot |
| FlatHashMaps.MoveLowersDisplacement | include/OrderBook.hpp:88-96 | each move into the hole lowers the total distance of entries from their homes, the first component of the termination measure |
| FlatHashMaps.RepairEnds | include/OrderBook.hpp:88 | when the scan meets an empty slot, no chain crosses the hole, so the whole table is probeable again |
| FlatHashMaps.OccupancyBound | include/OrderBook.hpp:44-61 | a map has at most as many entries as slots, and as many only when no slot is empty |
| MemoryPools.MemoryPool.constructor | include/MemoryPool.hpp:44-79 | threads every slot into the free list |
| MemoryPools.MemoryPool.Acquire | include/MemoryPool.hpp:83-98 | pops the first free slot, null exactly when none is free, and constructs nothing |
| MemoryPools.MemoryPool.Release | include/MemoryPool.hpp:102-116 | pushes a slot that is not free and wipes what it held |
| MemoryPools.MemoryPool.FreeCount | include/MemoryPool.hpp:124-133 | the walk along the links ends and counts every free slot once |
| IntrusiveLists.InsertKeepsLinked | include/OrderBook.hpp:361-365 | the four link writes put an object between its neighbours and leave a list that is linked both ways without repetition |
| IntrusiveLists.UnlinkKeepsLinked | include/PriceLevel.hpp:60-78 | the link writes of a removal leave the rest of the list linked in the same order |
| PriceLevels.PushBack | include/PriceLevel.hpp:44-58 | the order becomes the youngest of its level; order_count is the queue's length and total_shares the exact sum of remaining shares, which cannot wrap below 2^32 orders |
| PriceLevels.Unlink | include/PriceLevel.hpp:60-78 | the order at any position leaves the queue, the others keep their order, and the share total is left to the caller |
| PriceLevels.UnlinkAndDeduct | include/PriceLevel.hpp:80-83 | the shares the order still has leave the level's total together with the order |
| PriceLevels.Reduce | include/Order.hpp:44-52 | takes qty shares, or all when there are no more, and reports whether none is left |
| PriceLevels.ReducedQueue | include/OrderBook.hpp:193-196 | deducting a fill from the level and from one of its orders keeps the total the exact sum |
| OrderBooks.OrderBook.AddOrder | include/OrderBook.hpp:159-181 | returns 0 exactly when a level is needed and none is free, 1 or 2 otherwise; the order ends up last in the level of its side and price, the side stays sorted and list and table agree |
| OrderBooks.OrderBook.InsertLevelSorted | include/OrderBook.hpp:352-380 | links a new bid level behind exactly the higher bids and a new ask level behind exactly the lower asks, with the best pointer following |
| OrderBooks.OrderBook.ExecuteOrder | include/OrderBook.hpp:188-211 | 0 for a partial fill that changes nothing but shares and total, 1 or 2 when the order leaves and its level stays or goes; the missing-level return cannot occur |
| OrderBooks.OrderBook.CancelOrder | include/OrderBook.hpp:214-217 | the same effect as a fill of that quantity |
| OrderBooks.OrderBook.RemoveOrder | include/OrderBook.hpp:223-237 | the order leaves with all its shares, and its level with it exactly when it was the last |
| OrderBooks.OrderBook.DropLevel | include/OrderBook.hpp:231-233 | an empty level leaves the list, the table and the count, and its slot becomes free |
| OrderBooks.OrderBook.ForEachOrder | include/OrderBook.hpp:273-285 | ends and visits bids, then asks; of two orders of a side the first has the higher bid or lower ask, or the same price and the earlier place in its queue |
| OrderBooks.OrderBook.ClearLevels | include/OrderBook.hpp:288-310 | reads each link before the slot goes, frees exactly the levels of both lists, touches no other book's levels and leaves an empty book |
| OrderBooks.OrderBook.BestBid | include/OrderBook.hpp:239-249 | the highest price in the bid table, or 0 on an empty side, with the sum of all shares waiting there |
| OrderBooks.OrderBook.BestAsk | include/OrderBook.hpp:243-253 | the lowest price in the ask table, or 0 on an empty side, with the sum of all shares waiting there |
| BookShapes.BidsFallAsksRise | include/OrderBook.hpp:352-380 | along the two lists of a book bid prices strictly fall and ask prices strictly rise |
| VisitOrders.WalkInPriority | include/OrderBook.hpp:273-285 | the walk of a side is in price-time priority, position by position |
| TopOfBooks.QuoteIsQueue | include/OrderBook.hpp:239-253 | the prices in the tables of a book are those of the market's queues, and the shares waiting there those of the market's orders |
| TopOfBooks.QuotesAreOrders | include/OrderBook.hpp:239-245 | a price is in a side's table exactly when a live order of that instrument and side has it |
| TopOfBooks.BidOfMarket | include/OrderBook.hpp:239-241 | the best bid is the highest price of a live buy order of the instrument |
| TopOfBooks.AskOfMarket | include/OrderBook.hpp:243-245 | the best ask is the lowest price of a live sell order of the instrument |
| EngineShapes.VisitsEachOnce | include/OrderBook.hpp:273-285 | the visit lists every live order of the book exactly once |
| EngineShapes.PlacesAreLevels | include/OrderBook.hpp:259-261 | an instrument has as many price-table entries as levels on its two lists, which is what the closing cross deducts |
| OrderIndexes.DirectOrderIndex.Insert | include/MatchingEngine.hpp:51-68 | for every id, accepted or refused exactly as DuplicateIsRefused decides, and where it goes; collisions counts exactly the ids that go to the overflow; a refusal changes nothing, and an absent id is never refused and findable afterwards |
| OrderIndexes.DirectOrderIndex.Find | include/MatchingEngine.hpp:72-78 | exactly the map's order for the id, or null; an overflow id stays findable after its colliding occupant has left |
| OrderIndexes.DirectOrderIndex.Erase | include/MatchingEngine.hpp:81-95 | exactly the map without the id, and true exactly when it was there; it reads the order's id, so the slot must not have been released |
| OrderIndexes.DirectOrderIndex.Clear | include/MatchingEngine.hpp:97-101 | nothing is indexed any more |
| OrderIndexes.DirectOrderIndex.CountIsSum | include/MatchingEngine.hpp:103-104 | count is the number of direct slots in use plus the overflow entries |
| OrderIndexes.DuplicateIsRefused | include/MatchingEngine.hpp:51-68 | insert refuses a live id if and only if the id's direct slot is occupied |
| OrderIndexes.DuplicateSlipsIn | include/MatchingEngine.hpp:51-95 | a sequence of insertions and an erasure after which a live id is accepted a second time, which is why the engine looks first |
| EngineShapes.ArrivalRefines | include/MatchingEngine.hpp:236-265 | putting an order in its book and indexing it is an arrival in the market, and keeps the global invariant |
| EngineShapes.DepartureRefines | include/MatchingEngine.hpp:379-384 | taking an order out of its book, the index and the pool is a departure in the market, and keeps the global invariant |
| EngineShapes.ReductionRefines | include/OrderBook.hpp:193-200 | a partial fill changes one order's shares in the market and nothing else |
| EngineShapes.UnusedSlotWrite | include/MatchingEngine.hpp:236-246 | constructing in or releasing a slot in transit means nothing to the market |
| EngineShapes.WipeRefines | include/MatchingEngine.hpp:478-503 | releasing all orders and levels of one instrument clears its part of the market and no other |
| EngineShapes.WalkFindsIds | include/MatchingEngine.hpp:484-491 | the snapshot of a book holds exactly the ids indexed for its instrument |
| EngineShapes.FoundOrder | include/MatchingEngine.hpp:274-282 | an indexed id leads to a live order waiting in the book of its instrument, so the null-book branches are unreachable |
| BookTotals.TotalsAreSizes | include/OrderBook.hpp:255-261 | the live orders of all books add up to the index size and their level counts to the live levels |
| MatchingEngines.MatchingEngine.constructor | include/MatchingEngine.hpp:156-162 | a new engine is valid and stands for the empty market |
| MatchingEngines.MatchingEngine.OnAddOrder | include/MatchingEngine.hpp:213-266 | exactly the market's add step: duplicate, no order slot, no level slot or acceptance, with all counters |
| MatchingEngines.MatchingEngine.OnOrderExecuted | include/MatchingEngine.hpp:272-298 | exactly the market's take step for 'E' |
| MatchingEngines.MatchingEngine.OnOrderExecutedWithPrice | include/MatchingEngine.hpp:302-332 | exactly the market's take step for 'C' |
| MatchingEngines.MatchingEngine.OnOrderCancel | include/MatchingEngine.hpp:335-361 | exactly the market's take step for 'X' |
| MatchingEngines.MatchingEngine.OnOrderDelete | include/MatchingEngine.hpp:364-387 | exactly the market's delete step |
| MatchingEngines.MatchingEngine.OnOrderReplace | include/MatchingEngine.hpp:392-464 | exactly the market's replace step, with the new slot taken before the old one is released |
| MatchingEngines.MatchingEngine.ReplaceFound | include/MatchingEngine.hpp:405-464 | past the check for a known id, the market's replace of a live order, whatever comes of the new one |
| MatchingEngines.MatchingEngine.OnCrossTrade | include/MatchingEngine.hpp:474-504 | exactly the market's cross step: a closing cross clears one instrument, any other changes no book |
| MatchingEngines.MatchingEngine.OnNonCrossTrade | include/MatchingEngine.hpp:467-470 | counts and changes no order |
| MatchingEngines.MatchingEngine.OnBrokenTrade | include/MatchingEngine.hpp:507-509 | counts and changes no order |
| MatchingEngines.MatchingEngine.OnStockDirectory | include/MatchingEngine.hpp:170-193 | makes the instrument of this locate if it is not there, touches no other, and leaves the market as it was |
| MatchingEngines.MatchingEngine.EnsureBook | include/InstrumentMap.hpp:44-50 | one book per locate, made on the first order and kept |
| MatchingEngines.MatchingEngine.PlaceOrder | include/MatchingEngine.hpp:236-265 | the order is in the market exactly unless a level was needed and none was free; the rollback after a failed index insert is unreachable |
| MatchingEngines.MatchingEngine.MoveOrder | include/MatchingEngine.hpp:425-463 | with its slot in hand, a replace either moves the order or, when no level is to be had, loses it; nothing else can happen |
| MatchingEngines.MatchingEngine.Depart | include/MatchingEngine.hpp:291-297 | the id leaves the index before its slot is released, and neither live counter is clamped at zero |
| MatchingEngines.MatchingEngine.Sweep | include/MatchingEngine.hpp:482-503 | the closing cross of one instrument, with both clamped subtractions exact |
| MatchingEngines.MatchingEngine.RetireAll | include/MatchingEngine.hpp:488-491 | each order of the snapshot leaves the index by the id its slot still holds, and then the pool |
| MatchingEngines.MatchingEngine.PoolsBalance | include/MatchingEngine.hpp:518-529 | between events: taken order slots = live_orders = index size = market orders = sum over all books, the same for levels, and no live slot is on a free list |
| MatchingEngines.MatchingEngine.EverySlotHasItsUse | include/MatchingEngine.hpp:518-529 | between events every slot of either pool is free, or is the order of exactly one indexed id or the level of exactly one price, never both |
| MarketInvariants.StepKeepsWellFormed | include/MatchingEngine.hpp:213-509 | every event keeps the market invariant: queues and orders agree, no queue is empty, capacities hold, live counters are exact and peaks not below them |
| MarketInvariants.RunKeepsWellFormed | include/MatchingEngine.hpp:213-509 | so does every run |
| MarketRuns.StepConservesShares | include/MatchingEngine.hpp:213-504 | no step makes or loses a share |
| MarketRuns.RunConservesShares | include/MatchingEngine.hpp:213-504 | over any run, resting + entered = resting + taken by fills and cancels + dropped by deletes, replaces and closing crosses |
| MarketRuns.CrossDrops | include/MatchingEngine.hpp:474-504 | a closing cross drops exactly the shares resting at its instrument |
| MarketRuns.ReplaceDrops | include/MatchingEngine.hpp:405-434 | a replace drops exactly the old order's shares when it gets past the checks on the new id and the order pool, and none otherwise |
| MarketEvents.StepAccounts | include/MatchingEngine.hpp:213-464 | each A, F, E, C, X, D or U event is counted once, as accepted, unknown or refused for want of a slot |
| MarketEvents.RunAccounts | include/MatchingEngine.hpp:121-151 | over any run, order events = the seven accepted counters + unknown_order_events + pool_exhausted, level_missing stays 0, and pool_exhausted is the sum of the three rejection counters |
| MarketEvents.LocateDoesNotMatter | include/MatchingEngine.hpp:276-279 | a wrong locate has the effect of the home locate plus one locate mismatch |
| MarketEvents.RefusalChangesNothing | include/MatchingEngine.hpp:135-142 | an event that is not accepted leaves the market unchanged if and only if it is not a replace that loses its order |
| MarketEvents.ReplaceOutcomes | include/MatchingEngine.hpp:389-464 | the three outcomes of replacing a live order, each with the exact condition on the state before |
| MarketOutcomes.AddOutcomes | include/MatchingEngine.hpp:213-266 | an add is accepted exactly when its id is new and slots are left, and then leaves one order with side, price, shares, time and firm of the message, last in its queue; otherwise nothing |
| MarketOutcomes.TakeOutcomes | include/MatchingEngine.hpp:272-361 | a fill or cancel of less than the order has leaves it in its place with the rest, one of as much or more removes it alone, and one of an unknown id changes nothing |
| MarketOutcomes.DeleteOutcomes | include/MatchingEngine.hpp:364-387 | a delete removes its order alone, the others keeping their turns |
| MarketOutcomes.StepCounts | include/MatchingEngine.hpp:121-152 | each of the 18 event counters moves exactly when its condition on ids, prices and capacities before the event holds |
| MarketOutcomes.RunCounts | include/MatchingEngine.hpp:121-152 | after any run each counter is the number of its own events |
| MarketEvents.ReplaceCanLoseItsOrder | include/MatchingEngine.hpp:390 | a reachable state in which a failing replace removes the old order, against the comment there |
| MarketEvents.CrossClearsOneInstrument | include/MatchingEngine.hpp:474-504 | a closing cross leaves nothing of its instrument and everything of the others |
| MarketEvents.OthersInform | include/MatchingEngine.hpp:466-509 | taking the opening and halt crosses, trades and broken trades out of any run leaves the market it ends in as it was |
| MarketEvents.CrossesDrain | include/MatchingEngine.hpp:474-504 | closing every instrument that has orders leaves no order, no level and both live counters at 0 |
| MarketEvents.PeaksAreMaxima | include/MatchingEngine.hpp:248-262 | the peak counters are the largest live counts any prefix of the run has had |
| MarketEvents.SmallPoolIsEnough | include/OrderBook.hpp:141-143 | with no more level slots than a price table holds, every event at a real price is admissible |
| MarketEvents.SmallPoolRuns | include/OrderBook.hpp:141-143 | and so is every run from the empty market |
| MarketEvents.NoEmptyOrders | include/Order.hpp:40-42 | without zero-share adds and replaces, no live order has zero shares |
| MarketPriority.PriceTimePriority | include/PriceLevel.hpp:44-83 | after any run, of two orders waiting at one price the one accepted earlier stands first |
| MarketPriority.QueueIsByBirth | include/PriceLevel.hpp:44-83 | who waits at a price and when each was accepted leaves only one possible queue |
| Endian.DecodeEncode | tests/test_helper.hpp:32-57 | reading back what put_be32, put_be64 and the header writers put gives the value |
| Endian.EncodeDecode | include/Endian.hpp:45-77 | no two byte strings of one length load as the same number |
| Endian.SwapOfLittleIsBig | include/Endian.hpp:20-32 | byte-swapping a little-endian load gives the big-endian value |
| Endian.LoadBE16 | include/Endian.hpp:45-57 | the two bytes as a big-endian number, on either host |
| Endian.LoadBE32 | include/Endian.hpp:59-67 | the four bytes as a big-endian number, on either host |
| Endian.LoadBE64 | include/Endian.hpp:69-77 | the eight bytes as a big-endian number, on either host |
| Endian.LoadBE48 | include/Endian.hpp:84-97 | six shifted and or-ed bytes are the big-endian number, without overflow |
| Bits.OrOfDisjointIsSum | include/Endian.hpp:89-94 | or-ing bits that cannot meet adds them |
| Bits.MaskIsRemainder | include/OrderBook.hpp:42-43 | masking with a power of two less one is the remainder, for hash tables, order index and log ring alike |
| WireFormats.WirePayloadSize | include/WireFormat.hpp:309-314 | the registry search returns each type's record size and 0 for an unknown type |
| WireFormats.SizesAreSums | include/WireFormat.hpp:27-272 | the asserted size of every record is the sum of its field widths, for all 23 types |
| WireFormats.OffsetsAreSums | include/WireFormat.hpp:27-272 | the offsets noted beside the fields are the running sums of the widths |
| WireFormats.FieldsAt | include/WireFormat.hpp:139-235 | every field of a record is found at its noted offset, whatever the other fields hold |
| Messages.EventRoundTrip | tests/test_helper.hpp:88-216 | decoding an encoded message gives every delivered field back, whatever the undelivered fields hold |
| Messages.FieldBytes | include/Endian.hpp:45-93 | the numbers read from a payload are the weighted sums of its bytes |
| Messages.AddBytes | include/WireFormat.hpp:140-160 | which bytes of 'A' and 'F' are locate, time, reference number, side, shares, price and firm |
| Messages.TakeBytes | include/WireFormat.hpp:163-188 | which bytes of 'E', 'C' and 'X' are locate, reference number, shares, match number, printable and price |
| Messages.ReplaceBytes | include/WireFormat.hpp:191-205 | which bytes of 'D' and 'U' are locate, time, reference numbers, shares and price |
| Messages.TradeBytes | include/WireFormat.hpp:208-235 | which bytes of 'P', 'Q' and 'B' are locate, shares, price, match number and cross type |
| Feeds.SplitJoin | tests/test_helper.hpp:19-26 | splitting undoes framing |
| Feeds.JoinSplit | include/Parser.hpp:35-69 | framing undoes splitting: no byte of any buffer is lost or read twice |
| Feeds.CountsAreExact | include/Stats.hpp:56-65 | exactly which payloads each counter counts, the counter of every single type among them |
| Feeds.ParseAccounts | include/Parser.hpp:30-70 | consumed = payload bytes + framing bytes + 2 per zero-length frame + 2 for a cut frame; parse errors = zero-length + unknown + cut; truncated = known types shorter than their record |
| Feeds.ParseInPieces | include/Parser.hpp:30-70 | parsing a + b with a made of complete frames is parsing a and then b |
| Feeds.FeedRoundTrip | include/Parser.hpp:30-70 | framing any list of messages and parsing it delivers exactly that list, consumes the buffer and counts no error |
| Parsers.Parser.Run | include/Parser.hpp:30-70 | on any bytes the loop ends, reads nothing past the end, and leaves engine, counters and result where the frames lead |
| Parsers.Parser.Dispatch | include/Parser.hpp:89-126 | counts the message and makes exactly the step its payload encodes, or counts a short or unknown one |
| Parsers.CastDecides | include/Parser.hpp:76-83 | a payload makes a step of the market exactly when it is of a book type and passes the length check |
| Parsers.Parser.HandleAddOrder | include/Parser.hpp:231-261 | 'A' and 'F' with every field from its offset; a short payload is counted and reaches no book |
| Parsers.Parser.HandleOrderExecuted | include/Parser.hpp:263-272 | 'E' |
| Parsers.Parser.HandleOrderExecutedPrice | include/Parser.hpp:274-285 | 'C' |
| Parsers.Parser.HandleOrderCancel | include/Parser.hpp:287-295 | 'X' |
| Parsers.Parser.HandleOrderDelete | include/Parser.hpp:297-304 | 'D' |
| Parsers.Parser.HandleOrderReplace | include/Parser.hpp:306-317 | 'U' |
| Parsers.Parser.HandleNonCrossTrade | include/Parser.hpp:319-328 | 'P' |
| Parsers.Parser.HandleCrossTrade | include/Parser.hpp:330-337 | 'Q' |
| Parsers.Parser.HandleBrokenTrade | include/Parser.hpp:339-346 | 'B' |
| Parsers.Parser.HandleStockDirectory | include/Parser.hpp:138-156 | 'R' makes the instrument of the locate in bytes 1 and 2 and changes no order |
| Loggers.ActsInv | include/Logger.hpp:93-203 | the ring invariant holds after every interleaving of producer, drain thread, start and stop |
| Loggers.OtherSlot | include/Logger.hpp:108 | positions less than a ring apart lie in different slots |
| Loggers.PlaceIsMasked | include/Logger.hpp:108 | the slot of a position is the masked position when the capacity is a power of two |
| LoggerRuns.AlwaysSafe | include/Logger.hpp:93-203 | 0 <= head - tail <= capacity; the records handed over are the accepted ones from the first on, none repeated, skipped or torn; counted calls = produced + dropped |
| LoggerRuns.NoOverlap | include/Logger.hpp:108-118 | the slot being written is never one the drain thread has yet to give back, and every read finds the accepted record of its position |
| LoggerRuns.DropMeansFull | include/Logger.hpp:100-106 | a record is dropped if and only if the ring was full when tail was loaded |
| LoggerCalls.AcceptedAreTheCalls | include/Logger.hpp:93-118 | the accepted records are, in order, those of the calls at or above the threshold that found a free slot; all others of them are dropped, and attempts counts them all |
| LoggerRuns.StartRuns | include/Logger.hpp:65-77 | start makes the drain thread run exactly when the file opens or the logger runs already |
| LoggerRuns.StopFlushes | include/Logger.hpp:79-89 | once the producer has stopped, flushed equals produced and everything accepted was handed over when stop has joined the drain thread |
| LoggerRuns.StopEnds | include/Logger.hpp:79-89 | and stop does come to an end: after a number of drain steps bounded by the capacity the thread has ended, and stop returns with its next step |
| LoggerRuns.DrainKeepsUp | include/Logger.hpp:162-203 | while the logger runs, and whatever the producer does meanwhile, a number of drain steps bounded by the capacity hands over every record accepted at the start |

## Left out

- `MMapFile`, `ITCHProcessor`, `main.cpp` and benchmarks: operating system calls, argument parsing and reports.
- Throughput, timing and report printing in `Stats`: only its integer counters are modelled.
- Directory, trading-state and short-sale fields of an instrument, the handlers that set them, and `instruments_registered`: none has an effect on a book.
- Messages S, H, Y, L, V, W, K, J, h, I, N and O beyond framing, counting and the length check: they do not reach a book. One handler, `HandleInformational`, stands for the twelve of the code and takes the size from the registry, which equals the record size each of them checks.
- Wrap-around of the 64-bit statistics, of head and tail in the logger and of the parser's byte counts: they are unbounded integers here. The level's share total and order count are bounded, and shown not to overflow.
- The mixing constants of the hash function: it is a parameter, and masking is written as a remainder (`Bits.MaskIsRemainder`).
- MemoryPools.MemoryPool.Release: wipes the whole slot, where the code overwrites its first word only, so the model forbids reads of a released object that the code could still make.
- FlatHashMaps.FlatHashMap.Insert: the assertion on a full table is not modelled; the result is that of a build without assertions, and `for_each` is left out because nothing calls it.
- OrderIndexes.DirectOrderIndex.Insert: says what an accepted duplicate does to the array and the count, but the index is then no longer a map, so nothing is said about later lookups.
- OrderBooks.OrderBook.AddOrder: needs a price other than 0xFFFFFFFF and room in the price table for a level it opens, because the code ignores a failed table insert; the same holds of the members below.
- MatchingEngines.MatchingEngine.OnAddOrder: needs the event to be admissible in that sense.
- MatchingEngines.MatchingEngine.OnOrderReplace: needs the event to be admissible in that sense.
- MatchingEngines.MatchingEngine.ReplaceFound: needs the event to be admissible in that sense.
- MatchingEngines.MatchingEngine.PlaceOrder: needs the order's place to be admissible in that sense.
- MatchingEngines.MatchingEngine.MoveOrder: needs the new order's place to be admissible in that sense.
- Parsers.Parser.Dispatch: needs the event in the payload to be admissible in that sense.
- Parsers.Parser.HandleAddOrder: needs the event in the payload to be admissible in that sense.
- Parsers.Parser.HandleOrderReplace: needs the event in the payload to be admissible in that sense.
- MatchingEngines.MatchingEngine.OnStockDirectory: keeps no directory fields and does not count `instruments_registered`.
- Parsers.Parser.HandleStockDirectory: decodes the stock locate only.
- OrderBooks.OrderBook.ClearLevels: `clear_and_release` is the same call, and `clear_metadata`, which nothing calls, is left out.
- Parsers.Parser.Run: needs the events in the buffer to be an admissible run, for which `MarketEvents.SmallPoolRuns` gives a plain condition; the buffer is a value, so that the mapped file cannot change under the parser; the loop ends through a flag where the code breaks.
- Loggers.ActsInv: steps are sequentially consistent, so nothing is said about weaker memory orders; start and stop are called by one thread.
- LoggerRuns.StopFlushes: a record is an opaque value and "handed over" means passed to write_batch; text formatting, timestamps, file writes and their errors are not modelled.
- Struct packing, cache-line alignment and prefetching.
