# A verified model of the exchange and its subscribers

This project models the trading exchange in `ch06`: the matching engine's order book, the
market data that replicates it, and the queues, pools and connections they run on. Everything
is proved with Dafny 4.11; `dafny verify dfyconfig.toml` checks the whole project.

The pieces compose into one theorem, `Systems.SubscriberHasTheBooks`: for every run of the
exchange, and whatever the network loses, repeats or reorders, a subscriber outside recovery
holds exactly the books that the exchange had after the last update the subscriber counted.
`Systems.LinkedBookFollows` takes this to the end of the chain: the subscriber's linked book of a
ticker takes everything that is passed on, and ends with the exchange's orders and the exact best
bid and offer. All it supposes of the exchange is that each request met what its books ask for.

## How it is built

Three descriptions of an order book are stacked, each proved equal to the next.

1. *Rings.* `RingBooks.RingBook` is the pointer code of the source: two circular doubly linked
   rings of price levels, a circular queue of orders in each level, a price index shared by both
   sides, an index from keys to orders, and two `MemPools.MemPool` that supply the nodes. A
   pointer is the index of a pool block, null is -1. `MEOrderBook` and `MarketOrderBook` carry
   this code twice in the source, with different keys; here it is one class with the key as a
   type parameter. `RingRep`, `RingOps` and `RingEffects` hold the invariant and what each piece
   of pointer surgery does to it, stated on values; `PoolUse` counts the blocks in use, which
   `Capacity` relates to the orders and prices of the book.
2. *Levels.* `Levels` groups the orders of a side by price, best price first.
3. *Orders.* `Orders` is the small pure book: one list of orders a side, in price-time order.
   `Windows` says when its prices do not collide in the shared price index.

On the pure book, `Matching` says what `add` and `cancel` do and say; `PriceTime`,
`Conservation`, `Answers`, `ClientViews` and `Runs` prove what that means;
`MEOrderBooks.MEOrderBook` is the imperative book that is proved to do exactly that. `MarketData`,
`Replication`, `Snapshots` and `Recovery` treat the published stream and `MarketViews` what it
says; `Progress` and `Liveness` prove that recovery ends, `Retention` that what arrives meanwhile
is not lost, `Admission` that the linked books take what is passed on, and `Bounds` derives what
that needs from the exchange's requests; `Publishers`, `Synthesizers`, `Consumers` and
`MarketOrderBooks` are the classes along its way. `LFQueues` treats the queue between threads as
interleaved steps. `Wire`, `Protocol`, `Formats`, `Layouts` and `Sessions` treat the byte streams
between gateways and server, with `Sockets`, `OrderServers` and `OrderGateways` as the classes and
`Sequencers` behind the server. `Systems` puts the pieces together.

In the source's methods the asserts and `FATAL`s that end the program are modelled as a result
that is false, or proved not to happen.

## Repairs

In some places the text of the source departs from its evident intent. The model follows the
intent. Except for the three marked *no lemma*, module `Literal` (or `LFQueues.LateLookIff`)
writes down the literal form and proves when exactly it still does what it should.

- `ch06/exchange/matcher/me_order_book.cpp:83` passes the quantity and the new order id in each
  other's place. Repaired; harmless exactly when the two are equal (`Literal.SwappedArguments`).
- `ch06/exchange/matcher/me_order_book.h:136-137` and
  `ch06/trading/strategy/market_order_book.h:128-129` move the head of a side when the new level
  is worse. Repaired to better; the literal form keeps the side readable from best to worst
  exactly when the new price is worse than all others (`Literal.HeadMovesWrongly`). The check of
  the same order in `ch06/exchange/matcher/me_order_book.cpp:158` is reversed too; it is part of
  the printing code. With the repair, line 138 of the header never changes a link and is dropped.
- `ch06/trading/market_data/market_data_consumer.cpp:95-98` never stores an incremental and looks
  for the end of recovery only when one arrives. Repaired to store it, and to look after every
  queued message; see `Literal.IncrementalIsLost` and `Literal.SnapshotIsNotLookedAt`.
- `ch06/trading/strategy/market_order_book.cpp:21-22` compares asks with `>=` and gives false on
  an empty side. Repaired; the literal cache is exact after an update exactly when there was an
  order on its side and, for asks, none that the update betters (`Literal.LiteralCacheExactIff`).
- `ch06/trading/strategy/market_order_book.cpp:46-68`: the loops that free the levels do not
  advance, CLEAR leaves the price index filled and does not refresh the best bid and offer.
  Repaired; each has its condition: `Literal.FreeLevelsLiteral`, `Literal.ClearLeavesPointers`
  and `Literal.ClearLeavesCache`.
- `ch06/exchange/order_server/fifo_sequencer.h:31-39` never resets the number of pending
  requests. Repaired; over runs, `Literal.PublishedAgain`.
- `ch06/exchange/market_data/market_data_publisher.cpp:24` sends the bytes of the pointer instead
  of those of the update. Repaired, *no lemma*: addresses are not modelled. Line 29 reads the
  slot after releasing it at line 25: right in every run exactly when the producer leaves a slot
  spare (`LFQueues.LateLookIff`).
- `ch06/exchange/matcher/me_order_book.cpp:6-10` and
  `ch06/trading/strategy/market_order_book.cpp:6-10` leave the index arrays uninitialised. The
  model starts from null everywhere; *no lemma*.
- `ch06/trading/strategy/market_order_book.cpp:26-39` declares one name in several cases of a
  switch; the model gives each case its own; *no lemma*, the text does not compile.

## What is taken for granted

- A side is buy or sell; client ids and order ids are within the arrays they index.
- A client does not reuse the id of a live order (`Runs.Legal`).
- When an order comes to rest, no other live price shares its entry of the price index. That is so
  when live prices and the new one lie in a window of 256 consecutive values
  (`Windows.WindowOwnsSlot`).
- When an order comes to rest, each pool that gives a block for it keeps one free
  (`Capacity.RoomFor`; an order that matches in full needs none). Queues and buffers have room.
- Prices, ids, priorities and quantities do not leave their integer types. The one sum that could,
  the cached best quantity, is modelled modulo 2^32.
- Snapshot messages that are queued together come from one snapshot: the source does not compare
  the stamps of SNAPSHOT_START and SNAPSHOT_END. `Literal.MixedSnapshots` shows what happens
  otherwise.
- `std::sort` is modelled by a method that promises an ordered permutation and nothing about ties.
  All requests of one read share a receive time, so the order of a client's requests is kept
  only under the condition of `Sequencers.ClientOrderKept` and `OrderServers.OneReadOrder`.

## Model

| member | source | states |
|---|---|---|
| `Types.SlotsInWindow` | ch06/exchange/matcher/me_order_book.h:69-71 | among 256 consecutive prices two prices share an index entry only if they are equal |
| `Types.SlotIsRemainder` | ch06/exchange/matcher/me_order_book.h:69-71 | the index entry of a price is its remainder after division by 256 |
| `MemPools.MemPool.constructor` | ch06/common/mem_pool.h:38-41 | a new pool is all free |
| `MemPools.MemPool.UpdateNextFree` | ch06/common/mem_pool.h:18-34 | the cyclic search takes fewer than N steps, over used blocks only, and stops on a free block unless every block is in use, which is when the out-of-space assert fires |
| `MemPools.MemPool.Allocate` | ch06/common/mem_pool.h:44-52 | returns the block under the cursor, which was free; the assert fires exactly when no free block is left afterwards, so N blocks serve N-1 objects |
| `MemPools.MemPool.Deallocate` | ch06/common/mem_pool.h:54-59 | frees that block only, keeps all contents, and does not move the cursor |
| `Rings.LinkedBefore` | ch06/exchange/matcher/me_order_book.h:126-134 | linking a node before the k-th node of a ring of any length gives the ring with the node at place k, next and prev inverse to each other; before the head this is also the place after the last node |
| `Rings.UnlinkedFrom` | ch06/exchange/matcher/me_order_book.h:154-161 | unlinking the k-th node gives the ring without it and changes no other ring |
| `RingPools.LinkIn` | ch06/exchange/matcher/me_order_book.h:131-134 | the four writes, in order, link the node in front of the target |
| `RingPools.LinkInQueue` | ch06/exchange/matcher/me_order_book.h:178-183 | the four writes of a queue, in their own order, have the same effect |
| `RingPools.LinkAfter` | ch06/exchange/matcher/me_order_book.h:126-129 | the four writes after the last node have the same effect as linking before the first |
| `RingPools.UnlinkFrom` | ch06/exchange/matcher/me_order_book.h:197-204 | the writes take the node out of its ring and clear its links |
| `RingRep.InvOfLocal` | ch06/exchange/matcher/me_order_book.h:35-58 | a change that touches one slot, level, order and key, and restores the invariant there, keeps the invariant of rings, price index, order index and pools everywhere |
| `RingRep.LevelsOfInv` | ch06/exchange/matcher/me_order.h:60-62 | reading a ring from its head gives nonempty levels from most to least aggressive, each holding orders of its own side and price |
| `RingRep.SlotsDistinct` | ch06/exchange/matcher/me_order_book.h:69-76 | no two live levels share an entry of the price index |
| `RingEffects.AppendedBook` | ch06/exchange/matcher/me_order_book.h:178-185 | joining the queue of an existing level is queueing the order by price and time |
| `RingEffects.OpenedBook` | ch06/exchange/matcher/me_order_book.h:171-176 | opening a level at its sorted place is queueing the order by price and time |
| `RingEffects.DroppedBook` | ch06/exchange/matcher/me_order_book.h:194-205 | unlinking an order from a longer queue removes exactly that order from the book |
| `RingEffects.ClosedBook` | ch06/exchange/matcher/me_order_book.h:146-166 | closing a level removes exactly its one order from the book |
| `RingEffects.RequantifiedBook` | ch06/exchange/matcher/me_order_book.cpp:27 | writing a quantity changes that order only and keeps its place |
| `RingEffects.BestIsFirst` | ch06/exchange/matcher/me_order_book.cpp:52-53 | the first order of the head level is the first order of the side; the head is null exactly for an empty side |
| `RingEffects.LastOfLevel` | ch06/exchange/matcher/me_order_book.h:83 | the node before the first order is the last one queued at the price |
| `PoolUse.PoolsHoldTheBook` | ch06/exchange/matcher/me_order_book.h:168-209 | the pools hold exactly the nodes of the book: as many order blocks are in use as it has orders, as many level blocks as each side has prices, so no block is lost or used twice |
| `PoolUse.AcceptsFresh` | ch06/common/mem_pool.h:18-34 | a condition on the orders and prices of the book alone is enough for the pools and indexes to take a new order without running out of space |
| `Capacity.LevelsArePrices` | ch06/exchange/matcher/me_order_book.h:168-176 | a side has exactly as many levels as different prices |
| `RingBooks.RingBook.constructor` | ch06/exchange/matcher/me_order_book.cpp:6-10 | starts as an intact representation of the empty book |
| `RingBooks.RingBook.FindTarget` | ch06/exchange/matcher/me_order_book.h:105-120 | the walk ends, at the unique place where the new price is worse than everything before and better than everything after |
| `RingBooks.RingBook.LinkFirst` | ch06/exchange/matcher/me_order_book.h:101-103 | the first level of a side is a ring of its own and becomes the head |
| `RingBooks.RingBook.LinkLast` | ch06/exchange/matcher/me_order_book.h:122-129 | a price worse than all others goes behind the last level, the head stays |
| `RingBooks.RingBook.LinkAt` | ch06/exchange/matcher/me_order_book.h:130-141 | any other level goes in front of the target, and the head moves exactly when the new price is the best |
| `RingBooks.RingBook.AddOrder` | ch06/exchange/matcher/me_order_book.h:168-186 | refines queueing an order in the pure book |
| `RingBooks.RingBook.RemoveLevel` | ch06/exchange/matcher/me_order_book.h:146-166 | takes the level out of ring, head, price index and pool |
| `RingBooks.RingBook.RemoveOrder` | ch06/exchange/matcher/me_order_book.h:189-209 | refines removing an order from the pure book, and frees its blocks |
| `RingBooks.RingBook.SetOrderQty` | ch06/trading/strategy/market_order_book.cpp:32-35 | refines changing a quantity in the pure book |
| `RingBooks.RingBook.BestOrder` | ch06/exchange/matcher/me_order_book.cpp:52-53 | the first order of a side, null for an empty side |
| `RingBooks.RingBook.Find` | ch06/exchange/matcher/me_order_book.cpp:101-103 | the live order with this key, null exactly when there is none |
| `RingBooks.RingBook.NextPriority` | ch06/exchange/matcher/me_order_book.h:78-84 | one more than the last priority queued at the price on that side, 1 when the price is new |
| `RingBooks.RingBook.SlotMeans` | ch06/exchange/matcher/me_order_book.h:74-76 | the shared price index returns the level at that price and side, or null |
| `RingBooks.RingBook.FreeLevels` | ch06/trading/strategy/market_order_book.cpp:52-57 | walking a ring once around frees each of its levels once and nothing else |
| `RingBooks.RingBook.FreeOrders` | ch06/trading/strategy/market_order_book.cpp:47-50 | freeing what the order index holds empties the pool of orders |
| `RingBooks.RingBook.Clear` | ch06/trading/strategy/market_order_book.cpp:46-68 | leaves an intact representation of the empty book with both pools free |
| `Levels.AppendIsPlace` | ch06/exchange/matcher/me_order_book.h:178-182 | going last in the level of one's price is going behind everything at least as aggressive |
| `Levels.NewLevelIsPlace` | ch06/exchange/matcher/me_order_book.h:171-176 | the same for a new level at its sorted place |
| `Levels.FlattenInjective` | ch06/exchange/matcher/me_order.h:52-62 | levels and flat side carry the same information: equal flat sides have equal levels |
| `Orders.PlaceKeepsBook` | ch06/exchange/matcher/me_order_book.cpp:85-93 | queueing the latest order where nothing crosses keeps the book sorted, uncrossed and without collisions |
| `Orders.RemoveKeepsBook` | ch06/exchange/matcher/me_order_book.h:189-209 | so does removing any order, and the others stay |
| `Orders.SameOrdersSameSide` | ch06/exchange/matcher/me_order.h:52-62 | a well formed side is determined by the set of its orders |
| `Matching.MatchKeeps` | ch06/exchange/matcher/me_order_book.cpp:48-74 | matching keeps the book well formed, only consumes, and leaves quantity only when the other side no longer crosses |
| `Matching.AddKeeps` | ch06/exchange/matcher/me_order_book.cpp:78-94 | the book is sorted, uncrossed and keyed without collision after every add |
| `Matching.CancelKeeps` | ch06/exchange/matcher/me_order_book.cpp:97-119 | and after every cancel |
| `Matching.FoundOwner` | ch06/exchange/matcher/me_order_book.cpp:98-104 | a client and order id name at most one live order, and exactly that one is found |
| `PriceTime.MatchGivesShares` | ch06/exchange/matcher/me_order_book.cpp:21-74 | the matching loop gives every resting order exactly its share: what the orders ahead leave over, up to its quantity; trades, remaining orders and leaves follow from the shares |
| `PriceTime.PriceTimePriority` | ch06/exchange/matcher/me_order_book.cpp:48-74 | if a later order trades, every earlier one is filled completely; nothing trades beyond the limit; leftover means everything within the limit was consumed |
| `PriceTime.WithinLimit` | ch06/exchange/matcher/me_order_book.cpp:48-74 | no resting order trades beyond the incoming limit, and when quantity is left over every order within it has given everything |
| `Conservation.MatchConserves` | ch06/exchange/matcher/me_order_book.cpp:21-46 | what matching executes on the incoming order is what it takes from resting ones, order by order |
| `Conservation.SideShrinksByFills` | ch06/exchange/matcher/me_order_book.cpp:26-27 | the side total falls by exactly what is filled |
| `Conservation.MatchFillsAgree` | ch06/exchange/matcher/me_order_book.cpp:29-36 | the two FILLED responses and the TRADE of every match agree on price and quantity |
| `Conservation.RunConserves` | ch06/exchange/matcher/me_order_book.cpp:21-119 | over any run and for every order: accepted is executed plus handed back at cancel plus still resting |
| `ClientViews.FillTrue` | ch06/exchange/matcher/me_order_book.cpp:26-33 | both clients of a match are told the truth about their orders |
| `ClientViews.CancelTrue` | ch06/exchange/matcher/me_order_book.cpp:97-119 | so is the client of a cancel |
| `ClientViews.RunTrue` | ch06/exchange/matcher/me_order_book.cpp:21-119 | over any run, every response names an order its client made, fills respect the limit, and the quantity said to be left is what was accepted less what has been executed |
| `Answers.HandleAnswers` | ch06/exchange/matcher/me_order_book.cpp:78-119 | one request gets one answer, before any fill: the acceptance of everything it asked for under the next market id, or what the cancel gives back, or the rejection that names what was not found |
| `Answers.RunAnswered` | ch06/exchange/matcher/me_order_book.cpp:78-119 | over every run the answers are to the requests in order, each to the client who made it, and market ids are given out as 1, 2, 3, ... |
| `Runs.RunOk` | ch06/exchange/matcher/me_order_book.cpp:76-119 | after any run of adds and cancels the book is sorted, uncrossed and keyed without collision |
| `MEOrderBooks.BestOrderFacts` | ch06/exchange/matcher/me_order_book.cpp:38-45 | one fill is removing the best order or reducing it in place, and keeps the state invariant |
| `MEOrderBooks.MEOrderBook.TakeFromBest` | ch06/exchange/matcher/me_order_book.cpp:26-45 | the linked book follows one fill of the pure book |
| `MEOrderBooks.MEOrderBook.MatchBest` | ch06/exchange/matcher/me_order_book.cpp:21-46 | one match sends the two responses and two updates of the pure book and leaves its state |
| `MEOrderBooks.MEOrderBook.CheckForMatch` | ch06/exchange/matcher/me_order_book.cpp:48-74 | the loop ends, and equals the recursive matching function in state, messages and leaves |
| `MEOrderBooks.MEOrderBook.Add` | ch06/exchange/matcher/me_order_book.cpp:78-94 | refines the pure add: same book, next id, responses and updates; window and room are asked for only when something comes to rest, and of the book that matching leaves |
| `MEOrderBooks.MEOrderBook.Cancel` | ch06/exchange/matcher/me_order_book.cpp:97-119 | refines the pure cancel, including the rejection of unknown clients and orders |
| `MarketData.ReplayKeeps` | ch06/trading/strategy/market_order_book.cpp:24-44 | every book that a fitting stream passes through is sorted, uncrossed and without collisions |
| `Replication.HitIsPublic` | ch06/exchange/matcher/me_order_book.cpp:35-45 | the CANCEL or MODIFY after a TRADE tells a subscriber exactly what the trade did |
| `Replication.AddReplays` | ch06/exchange/matcher/me_order_book.cpp:78-94 | replaying the updates of an add turns the book before into the book after |
| `Replication.CancelReplays` | ch06/exchange/matcher/me_order_book.cpp:97-119 | replaying the update of a cancel does too |
| `Replication.RunReplicates` | ch06/exchange/matcher/matching_engine.h:21-43 | over any run over all tickers: every update fits, and replaying all of them gives the exchange's books |
| `MarketViews.RunTold` | ch06/exchange/matcher/me_order_book.cpp:21-46 | over every run each update is true of the books that the updates before it make: a trade is at the best price, the update after it is about that order, a Modify with its side, price and priority and the quantity then resting, a Cancel with the quantity it had and no priority; any other Cancel has quantity 0 and the order's priority; an Add has a new id and the next priority at its price |
| `MarketViews.ChangesNameTheirAdd` | ch06/exchange/matcher/me_order_book.cpp:36-46 | over every run a Modify carries the ticker, side, price and priority of the Add that announced its order, and so does a Cancel, but for the priority after a trade |
| `Replication.SameLevels` | ch06/trading/strategy/market_order_book.cpp:20-44 | equal sides have the same levels in the same order with the same orders, quantities, priorities and queue positions |
| `Publishers.MarketDataPublisher.PublishNext` | ch06/exchange/market_data/market_data_publisher.cpp:20-33 | the update goes to the socket and, read after its slot is released, to the synthesizer with the same number |
| `Publishers.MarketDataPublisher.Run` | ch06/exchange/market_data/market_data_publisher.cpp:20-34 | everything in the queue goes to both receivers in order; all that was ever sent is numbered 1, 2, 3, ... |
| `Snapshots.NoteMirrors` | ch06/exchange/market_data/snapshot_synthesizer.cpp:38-74 | on a fitting update no assert fires, and the table keeps listing exactly the live orders by id |
| `Snapshots.StreamMirrors` | ch06/exchange/market_data/snapshot_synthesizer.cpp:38-74 | along the whole stream and for all tickers no existence or side assert fires and the tables stay exact; for the assert on the number see `Synthesizers.HistoryFires` |
| `Snapshots.ListingRebuilds` | ch06/exchange/market_data/snapshot_synthesizer.cpp:98-105 | replaying a table in the order of ids fits, and queues every order at its place, because ids and priorities rise along each level |
| `Snapshots.SnapshotRebuilds` | ch06/exchange/market_data/snapshot_synthesizer.cpp:80-111 | a snapshot taken after any prefix of the stream replays, over whatever books, to the books after that prefix |
| `Snapshots.ExpectedMeans` | ch06/exchange/market_data/snapshot_synthesizer.cpp:43-66 | with an exact table the asserts hold exactly when no live order has the id of an Add, or a live order has the id and side of a Modify or Cancel |
| `Snapshots.SnapshotMeans` | ch06/exchange/market_data/snapshot_synthesizer.cpp:80-111 | a snapshot is its start, then by ticker a Clear and all listed orders by ascending id, then its end |
| `Recovery.SnapshotLists` | ch06/exchange/market_data/snapshot_synthesizer.cpp:80-111 | the snapshot of any history, at any of its points, is that list of its tables, which hold exactly the live orders there |
| `Synthesizers.SnapshotSynthesizer.AddToSnapshot` | ch06/exchange/market_data/snapshot_synthesizer.cpp:38-78 | folds one update into the table; succeeds exactly when none of its asserts fires |
| `Synthesizers.SnapshotSynthesizer.SendOrders` | ch06/exchange/market_data/snapshot_synthesizer.cpp:98-105 | sends the live orders by ascending id, numbered on |
| `Synthesizers.SnapshotSynthesizer.PublishSnapshot` | ch06/exchange/market_data/snapshot_synthesizer.cpp:80-111 | sends the snapshot of all tables between its two stamped markers, numbered from 0 |
| `Synthesizers.NoAssertIff` | ch06/exchange/market_data/snapshot_synthesizer.cpp:38-78 | none of the asserts, on existence, side or sequence number, fires along a list of messages exactly when they are numbered on without a gap and each update is acceptable in its turn |
| `Synthesizers.HistoryFires` | ch06/exchange/market_data/snapshot_synthesizer.cpp:76-77 | any stretch of an exchange's history, numbered on, fires none of them and leaves the tables of the longer history |
| `Synthesizers.SnapshotSynthesizer.Drain` | ch06/exchange/market_data/snapshot_synthesizer.cpp:22-27 | drains the queue; succeeds exactly when no assert fires, and then the tables are those after all its updates |
| `Synthesizers.SnapshotSynthesizer.Turn` | ch06/exchange/market_data/snapshot_synthesizer.cpp:18-36 | on an exchange's stream a turn of the loop always succeeds, keeps table and count those of all history read, and the snapshot it sends is the one recovery relies on, numbered from 0 |
| `Recovery.RecoveryEndsIff` | ch06/trading/market_data/market_data_consumer.cpp:102-194 | recovery ends exactly when the queued snapshot runs 0..n without gap from SNAPSHOT_START to SNAPSHOT_END and the incrementals after its stamp have no gap; then the body and those incrementals are passed on |
| `Recovery.UnbrokenMeans` | ch06/trading/market_data/market_data_consumer.cpp:107-144 | the tests on the snapshot queue hold exactly when it is 0, 1, ..., n-1 from a SNAPSHOT_START on, and, to be complete, up to a SNAPSHOT_END |
| `Recovery.CompleteIsWhole` | ch06/trading/market_data/market_data_consumer.cpp:107-144 | a complete queue from one snapshot holds all of that snapshot |
| `Recovery.RecoveredInSync` | ch06/trading/market_data/market_data_consumer.cpp:146-191 | after a recovery the subscriber's books are the exchange's at the last number counted |
| `Recovery.ReceiveSafe` | ch06/trading/market_data/market_data_consumer.cpp:50-68 | every message that either channel may deliver keeps the consumer safe |
| `Recovery.RunSafe` | ch06/trading/market_data/market_data_consumer.cpp:35-194 | for every pattern of loss, repetition and reordering: outside recovery, what was passed on replays to the exchange's books after update next-1 |
| `Retention.InSequencePassedOn` | ch06/trading/market_data/market_data_consumer.cpp:50-68 | outside recovery, updates in sequence are all passed on at once |
| `Retention.GapStartsRecovery` | ch06/trading/market_data/market_data_consumer.cpp:50-61 | any other number starts recovery with empty queues, in which the message that showed the gap is kept |
| `Retention.SnapshotsIgnored` | ch06/trading/market_data/market_data_consumer.cpp:38-42 | outside recovery snapshot messages change nothing |
| `Retention.ReceiveAllSplits` | ch06/trading/market_data/market_data_consumer.cpp:50-71 | the messages of a callback count one after the other, all of them |
| `Retention.OneReceived` | ch06/trading/market_data/market_data_consumer.cpp:50-68 | a callback with one message is that message received |
| `Retention.RecoveryKeeps` | ch06/trading/market_data/market_data_consumer.cpp:88-144 | while recovery goes on, every queued incremental stays, nothing is passed on, and the snapshot queue goes exactly when it is broken, or complete with a gap behind it |
| `Retention.RecoveryPassesOn` | ch06/trading/market_data/market_data_consumer.cpp:146-191 | over a whole recovery: whatever became known beyond the stamp of the snapshot is passed on when it ends, in order and as the last messages, and the next number expected is the first one not known |
| `Progress.ReceiveTidy` | ch06/trading/market_data/market_data_consumer.cpp:107-144 | after any message, a consumer in recovery has no queued snapshot message or an unbroken queue from SNAPSHOT_START on |
| `Progress.SnapshotEndsRecovery` | ch06/trading/market_data/market_data_consumer.cpp:50-194 | one snapshot, whole and in order among any incrementals, ends recovery exactly when no queued incremental lies beyond a gap after its stamp; then its body and the incrementals up to the first one missing have been passed on |
| `Liveness.CatchesUp` | ch06/trading/market_data/market_data_consumer.cpp:35-194 | from every state that can come about, in recovery or not, some run of arrivals ends outside recovery with every update counted and the exchange's books rebuilt |
| `Admission.AddHeldIff` | ch06/exchange/matcher/me_order_book.h:69-76 | an addition leaves a book without shared index entries and within the pools exactly when the book was so before, the entry is its own and the blocks it needs are free |
| `Admission.BodyTaken` | ch06/exchange/market_data/snapshot_synthesizer.cpp:80-111 | every update of a snapshot body of books within bounds is taken by the books being rebuilt, whatever they were before |
| `Admission.RunTaken` | ch06/trading/market_data/market_data_consumer.cpp:35-194 | over every run of the network, so is everything the consumer passes on |
| `Bounds.ServeBoundedIff` | ch06/exchange/matcher/me_order_book.cpp:78-94 | a request keeps every published book within bounds, at every update it sends, exactly when it met what `MEOrderBooks.MEOrderBook.Add` asks for |
| `Bounds.RunBoundedIff` | ch06/exchange/matcher/me_order_book.cpp:78-119 | the same over every run of the exchange |
| `Consumers.MarketDataConsumer.ScanSnapshot` | ch06/trading/market_data/market_data_consumer.cpp:114-132 | walking the map by ascending number finds whether there is a gap, and the body |
| `Consumers.MarketDataConsumer.ScanIncrementals` | ch06/trading/market_data/market_data_consumer.cpp:146-172 | finds the first missing number from the stamp on and the updates before it |
| `Consumers.MarketDataConsumer.CheckSnapshotSync` | ch06/trading/market_data/market_data_consumer.cpp:102-194 | refines the pure check, with its four ways out |
| `Consumers.MarketDataConsumer.QueueMessage` | ch06/trading/market_data/market_data_consumer.cpp:88-99 | refines the pure queueing; a repeated snapshot number empties the queue of snapshot messages first; queued incrementals stay unless recovery ends |
| `Consumers.MarketDataConsumer.RecvCallback` | ch06/trading/market_data/market_data_consumer.cpp:35-73 | refines the pure receiver over all messages of one callback; snapshot messages outside recovery change nothing |
| `TopOfBook.TopIsFirstLevel` | ch06/trading/strategy/market_order_book.h:25-57 | price and quantities of the head level are those of the leading orders of the side |
| `TopOfBook.TopIsExact` | ch06/trading/strategy/market_order_book.h:25-57 | the cached top of a side is a live price that no live price betters, with the sum over all orders at it modulo 2^32; the reserved values for an empty side |
| `TopOfBook.JoiningAdds` | ch06/trading/strategy/market_order_book.h:31-34 | an order that joins the best level adds exactly its quantity to the best quantity, modulo 2^32 |
| `TopOfBook.ModifyingChanges` | ch06/trading/strategy/market_order_book.h:31-34 | a Modify in the best level changes the best quantity by the difference |
| `TopOfBook.CancellingTakes` | ch06/trading/strategy/market_order_book.h:31-34 | a Cancel in the best level takes its quantity away, while others stay there |
| `TopOfBook.UntouchedTop` | ch06/trading/strategy/market_order_book.cpp:21-22 | an update strictly behind the best price of its side leaves the best level of both sides alone, so skipping the refresh is sound |
| `TopOfBook.TouchesMeans` | ch06/trading/strategy/market_order_book.cpp:21-22 | the guard of the refresh holds exactly when no live price of the side is strictly better than the one named |
| `TopOfBook.RefreshTouched` | ch06/trading/strategy/market_order_book.cpp:79 | refreshing just the touched side keeps the cache exact |
| `MarketOrderBooks.MarketOrderBook.LevelQty` | ch06/trading/strategy/market_order_book.h:31-34 | walking the ring once around sums the quantities of the level, modulo 2^32 |
| `MarketOrderBooks.MarketOrderBook.UpdateBBO` | ch06/trading/strategy/market_order_book.h:25-57 | refreshes exactly the sides asked for, each to its best live price and all the quantity at it |
| `MarketOrderBooks.MarketOrderBook.OnMarketUpdate` | ch06/trading/strategy/market_order_book.cpp:20-84 | the linked book follows the pure replay, and after every update the cached best bid and offer are the best live prices with all the quantity at them |
| `LFQueues.StepKeeps` | ch06/common/lf_queue.h:21-42 | whatever the interleaving, no step of either thread goes wrong and each keeps the invariant of indices, counter and slots |
| `LFQueues.FifoForEveryRun` | ch06/common/lf_queue.h:21-42 | for every interleaving: values are read in the order written, the read assert never fires, no slot is written while it is read |
| `LFQueues.NeverStuck` | ch06/common/lf_queue.h:21-42 | from any reachable state some run lets the consumer copy everything written, and then any value can be written and copied next |
| `LFQueues.LateLookIff` | ch06/exchange/market_data/market_data_publisher.cpp:25-29 | a read after release sees the value in every run exactly when a slot is spared |
| `LFQueues.LFQueue.Put` | ch06/common/lf_queue.h:21-23 | writing the next slot changes no element when there is room; of a full queue, which nothing refuses, it overwrites exactly the oldest element |
| `LFQueues.LFQueue.UpdateWriteIndex` | ch06/common/lf_queue.h:25-28 | appends what the slot holds, full queue or not; in memory, exactly the two writes |
| `LFQueues.LFQueue.GetNextToRead` | ch06/common/lf_queue.h:30-32 | the slot of the oldest element, null exactly when empty |
| `LFQueues.LFQueue.UpdateReadIndex` | ch06/common/lf_queue.h:34-38 | drops the oldest element; the assert fires exactly on an empty queue |
| `Sequencers.SortByTime` | ch06/exchange/order_server/fifo_sequencer.h:29 | sorts the first n places in place: an ordered permutation, the rest untouched |
| `Sequencers.ClientOrderKept` | ch06/exchange/order_server/fifo_sequencer.h:53-59 | every sort by receive time keeps a client's order exactly when any two of its requests have increasing times or are equal |
| `Sequencers.PublishedOnce` | ch06/exchange/order_server/fifo_sequencer.h:18-40 | over any run of batches each accepted request is published exactly once or still pending |
| `Sequencers.EarlierIsNearer` | ch06/exchange/order_server/fifo_sequencer.h:29-38 | of two requests of a batch, the one received earlier is nearer the front of the engine's queue |
| `Sequencers.FIFOSequencer.AddClientRequest` | ch06/exchange/order_server/fifo_sequencer.h:18-22 | appends, and stops the program exactly at 1024 pending requests |
| `Sequencers.FIFOSequencer.SequenceAndPublish` | ch06/exchange/order_server/fifo_sequencer.h:24-40 | the queue keeps its elements and receives, one by one behind them, the requests of a sorted permutation of what was pending; nothing stays pending |
| `Wire.DecodeEncode` | ch06/exchange/order_server/client_request.h:31-40 | a record of fields within their widths is decoded to itself |
| `Wire.EncodeDecode` | ch06/exchange/order_server/client_request.h:31-40 | any bytes of the right length are the encoding of what they decode to |
| `Wire.SegmentationIndependent` | ch06/exchange/order_server/order_server.h:72-102 | however a stream is cut into receives, the frames are those of the whole stream in order, and what is kept is its incomplete tail |
| `Wire.FramesAndTail` | ch06/exchange/order_server/order_server.h:72-102 | frames and tail together are the stream |
| `Wire.CutFrames` | ch06/exchange/order_server/order_server.h:72-102 | cutting a stream of frames anywhere gives its first frames and a tail that completes the rest |
| `Protocol.Sizes` | ch06/exchange/order_server/client_request.h:31-62 | a numbered request is 38 bytes, a numbered response 50 |
| `Protocol.TakesExpected` | ch06/exchange/order_server/order_server.h:78-98 | requests of one client from one socket, numbered on, are all accepted, in order and once |
| `Protocol.PassesExpected` | ch06/trading/order_gw/order_gateway.cpp:44-59 | responses of one client, numbered on, are all passed on |
| `Protocol.TakesOnlyBound` | ch06/exchange/order_server/order_server.h:78-98 | whatever arrives: what is taken from a client was received, numbered on without a gap, and only from the socket bound to the client, which never changes |
| `Protocol.TakeMeans` | ch06/exchange/order_server/order_server.h:78-98 | a request binds its client's socket when there is none yet, whatever its number; it is accepted exactly when it comes from the bound socket under the expected number |
| `Protocol.SendersAreBound` | ch06/exchange/order_server/order_server.h:80-83 | after any requests every client that sent one has a socket: the one it had, or this one |
| `Protocol.TakeAllSplits` | ch06/exchange/order_server/order_server.h:75-99 | the frames of a read count one after the other, all of them |
| `Protocol.OneTaken` | ch06/exchange/order_server/order_server.h:78-98 | a read of one frame is that frame taken |
| `Protocol.PassMeans` | ch06/trading/order_gw/order_gateway.cpp:44-59 | a response is passed on exactly when it is the client's own under the expected number |
| `Protocol.PassAllSplits` | ch06/trading/order_gw/order_gateway.cpp:41-60 | the frames of a read count one after the other, all of them |
| `Protocol.OnePassed` | ch06/trading/order_gw/order_gateway.cpp:44-59 | a read of one frame is that frame passed |
| `Protocol.PassesOnlyOwn` | ch06/trading/order_gw/order_gateway.cpp:44-59 | whatever arrives: a gateway passes on only its client's responses, numbered on without a gap |
| `Formats.RequestRoundTrip` | ch06/exchange/order_server/client_request.h:31-62 | a request that fits its layout comes back from the wire as the same request |
| `Formats.ResponseRoundTrip` | ch06/exchange/order_server/client_response.h:37-48 | so does a response |
| `Formats.UpdateRoundTrip` | ch06/exchange/market_data/market_update.h:46-54 | so does a market update |
| `Layouts.RequestLayout` | ch06/exchange/order_server/client_request.h:10-14 | at which byte each field of a request lies, least significant byte first, and the codes of type and side |
| `Layouts.ResponseLayout` | ch06/exchange/order_server/client_response.h:10-48 | the same for a response |
| `Layouts.UpdateLayout` | ch06/exchange/market_data/market_update.h:9-54 | the same for a market update |
| `Sessions.DeliverReads` | ch06/exchange/order_server/order_server.h:72-102 | what a delivery of any bytes completes is exactly the next messages sent |
| `Sessions.StepKeeps` | ch06/exchange/order_server/order_server.h:49-103 | every step of the server and all gateways finds valid ids and sockets and keeps both directions in order |
| `Sessions.DeliveredInOrder` | ch06/trading/order_gw/order_gateway.cpp:15-64 | over any run, both ways: messages are accepted in order, each once, unchanged, from the client's own socket only, and all of them once nothing is under way |
| `Sessions.RequestArrives` | ch06/exchange/order_server/order_server.h:68-103 | from every state that can come about, a client's next request is sent behind all it asked before, and once the bytes have arrived the server has taken all of it, from the client's socket |
| `Sessions.ResponseArrives` | ch06/trading/order_gw/order_gateway.cpp:34-64 | the same for the next response to a client the server has heard from |
| `Sockets.CopyBytes` | ch06/exchange/order_server/order_server.h:100 | copying between ranges that do not overlap moves the bytes and keeps all others |
| `Sockets.TCPSocket.DropFront` | ch06/exchange/order_server/order_server.h:100-101 | the incomplete rest moves to the front of the buffer; the ranges do not overlap when the rest is no longer than what was consumed |
| `Sockets.TCPSocket.SendNumbered` | ch06/trading/order_gw/order_gateway.cpp:24-25 | number and message, sent one after the other, are one frame |
| `OrderServers.OrderServer.TakeOne` | ch06/exchange/order_server/order_server.h:75-98 | binds, checks and counts as the protocol says; an accepted request waits behind the others under the time of the read; stops the program only when the sequencer is full |
| `OrderServers.OrderServer.RecvCallback` | ch06/exchange/order_server/order_server.h:68-103 | takes exactly the complete frames of the buffer, in order, keeps its tail, and leaves what it accepted waiting in order under the time of the read |
| `OrderServers.OneReadOrder` | ch06/exchange/order_server/order_server.h:68-98 | the requests of one read all get one time, so a client's order among them is certain exactly when they are all the same |
| `OrderServers.EarlierReadFirst` | ch06/exchange/order_server/order_server.h:68-107 | of two reads of one round, everything accepted in the earlier one comes before everything accepted in the later one, whichever socket was read first |
| `OrderServers.OrderServer.RecvFinishedCallback` | ch06/exchange/order_server/order_server.h:105-107 | what was accepted in the round goes on sorted by receive time, request by request behind what was queued |
| `OrderServers.OrderServer.SendNext` | ch06/exchange/order_server/order_server.h:49-62 | the oldest response goes to its client's socket behind the client's next number; fails exactly when there is no socket |
| `OrderGateways.OrderGateway.Run` | ch06/trading/order_gw/order_gateway.cpp:21-29 | everything in the queue goes to the socket, numbered on |
| `OrderGateways.OrderGateway.RecvCallback` | ch06/trading/order_gw/order_gateway.cpp:34-64 | passes on exactly the expected ones of the complete frames, in order, and keeps the tail |
| `Systems.PublishedPrefix` | ch06/exchange/market_data/market_data_publisher.cpp:20-34 | whatever an exchange has published so far is a history that the recovery theorem can rely on |
| `Systems.SubscriberHasTheBooks` | ch06/trading/market_data/market_data_consumer.cpp:35-194 | for every run and every network: outside recovery the subscriber has the exchange's books as of the last update counted, and the exchange's own books once all have been counted |
| `Systems.SubscriberBooksTake` | ch06/trading/strategy/market_order_book.cpp:20-44 | when every request met what the exchange's books ask for, every update passed on for a ticker meets what `MarketOrderBooks.MarketOrderBook.OnMarketUpdate` asks for, one after the other |
| `Systems.LinkedBookFollows` | ch06/trading/strategy/market_order_book.cpp:20-84 | a linked book given what was passed on for its ticker holds the exchange's book as of the last update counted and its exact best bid and offer, and the exchange's own book once all have been counted |
| `Systems.PublishAndFold` | ch06/exchange/market_data/market_data_publisher.cpp:20-34 | publisher and synthesizer together: no assert fires, the synthesizer has folded all that was published, and a snapshot is that of all of it |
| `Systems.OneTicker` | ch06/trading/strategy/market_order_book.cpp:20-44 | the book of a ticker is the replay of the updates for that ticker |
| `Windows.WindowOwnsSlot` | ch06/exchange/matcher/me_order_book.h:69-76 | with live prices among 256 consecutive ones, a price that does not cross owns its entry of the shared index |
| `Windows.UncrossedOwnsSlot` | ch06/exchange/matcher/me_order_book.h:69-76 | a price that does not cross owns its entry exactly when no other live price shares it |
| `Windows.OneSideOnly` | ch06/exchange/matcher/me_order_book.h:69-76 | a price is live on at most one side |
| `Literal.SwappedArguments` | ch06/exchange/matcher/me_order_book.cpp:83 | the literal call does what it should exactly when the quantity equals the new id |
| `Literal.HeadMovesWrongly` | ch06/exchange/matcher/me_order_book.h:130-141 | the literal head move leaves a side that reads from best to worst exactly when the new price is worse than all others |
| `Literal.IncrementalIsLost` | ch06/trading/market_data/market_data_consumer.cpp:95-98 | in recovery the literal form keeps no incremental, and handles one right exactly when a complete snapshot is waiting that covers it; while a snapshot is awaited or collected every incremental is lost |
| `Literal.SnapshotIsNotLookedAt` | ch06/trading/market_data/market_data_consumer.cpp:88-99 | the literal form handles a snapshot message right exactly when the queue it joins is unbroken and not yet complete |
| `Literal.LiteralCacheExactIff` | ch06/trading/strategy/market_order_book.cpp:21-22 | after any update the literal cache is exact exactly when there was an order on its side and, for asks, none that the update betters; a first order is right only when it looks like an empty side |
| `Literal.FreeLevelsLiteral` | ch06/trading/strategy/market_order_book.cpp:52-64 | the loop that does not advance stops the program exactly when the side has two levels or more; otherwise it frees the side |
| `Literal.ClearLeavesPointers` | ch06/trading/strategy/market_order_book.cpp:46-68 | where the program goes on, the literal CLEAR leaves an intact representation exactly when there was nothing to clear |
| `Literal.ClearLeavesCache` | ch06/trading/strategy/market_order_book.cpp:46-79 | for prices below the reserved one, the cache stays exact over a literal CLEAR exactly when the book was empty |
| `Literal.PublishedAgain` | ch06/exchange/order_server/fifo_sequencer.h:24-40 | over runs without the reset, no request is published more often than accepted exactly when no flush comes after a flush that had something pending |
| `Literal.MixedIsDeliverable` | ch06/trading/market_data/market_data_consumer.cpp:107-148 | the snapshot messages of the next row come from two snapshots of one history |
| `Literal.MixedSnapshots` | ch06/trading/market_data/market_data_consumer.cpp:50-148 | a fresh consumer that misses incremental 1, gets incremental 2 and then such messages ends recovery with wrong books |

## Left out

- Sockets, epoll, multicast groups, timestamps and `createSocket`: a connection is a pair of byte
  buffers and a first-in-first-out stream, multicast a channel that may lose, repeat and reorder.
- Threads, affinity, sleeps, signals, start and stop: one callback or one drained queue at a time;
  only the queue itself is treated as interleaved steps, under sequential consistency.
- `Logger` and all `toString` code, including the order check in it: output only.
- `trade_engine.h` is not part of this model; its callbacks do nothing here, and `Systems.Feed` stands for whatever hands the updates to the books.
- The framing of market data messages in the consumer's socket: it is the same code as that of the
  order server, so the consumer starts from whole messages.
- Short writes of the operating system: the outbound buffer goes out whole.
- A client that closes its connection or connects again: a socket stays bound.
- The dispatch loop of the matching engine (`ch06/exchange/matcher/matching_engine.h:21-71`): `Replication.Serve` does the same on values, one book a ticker; a book's messages are its own output here.
- The pool behind the synthesizer's table: the table holds the updates themselves.
- OrderServers.OrderServer.SendNext: one turn of the sending loop at `ch06/exchange/order_server/order_server.h:49-62`; the loop repeats it until the queue is empty.
- Recovery.RunSafe: supposes that snapshot messages queued together come from one snapshot, because the source does not compare their stamps.
- The order of writes within one call: links are written in the source's order, but the price index entry after the links where `addOrdersAtPrice` writes it first, and a removal sets the new first order or head after the removed node's links are cleared where the source does it just before. A book has one thread, so nobody sees the states in between.
- ch03 and the copies in ch04: no further logic.
