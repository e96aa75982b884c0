# Exchange and trading client: a verified model

The system is a C++ exchange with its trading client. Requests enter the exchange's limit order books, which
match them and emit private responses and public updates; a publisher numbers the updates and a synthesizer
publishes snapshots of them; a consumer at the client detects lost updates and recovers from a snapshot; the
client rebuilds the books, quotes through an order manager with a pre-trade risk check, and keeps a position.
Lock-free rings and fixed memory pools connect the threads.

This project models that logic and proves what it is for.

- **The book.** `Rings` and `LevelBook` are the pointer structure: circular price levels, circular queues, the price
  index of 256 slots, the order index. `MatchingEngine` trades on it. `PriceTime` is the reference: a bag of resting
  orders in which the best order is the one that none is ahead of. Every run of the pointer book is a run of the
  reference book, message for message, until a memory pool runs out. `BookLaws`, `PublicFeed` and `ExchangeRuns`
  prove of the reference that it is never crossed, that responses account exactly for every order's quantity, and
  that updates replay the book; `ResponseLaws` that every response names the right order at the right price.
- **Market data.** `MarketData`, `SnapshotSynthesizer` and `MarketDataPublisher` are the sending end, `ConsumerSpec`
  and `MarketDataConsumer` the receiving end. `Recovery` proves safety over a network that loses, duplicates and
  reorders; `OrderlyDelivery` says which updates are delivered, `RecoveryProgress` when recovery ends, and `CatchUp`
  that one delivery can always end it; `MixedSnapshots`, `Overwriting`, `AgreedSnapshots` and `MixingExample` what
  mixing snapshots does. `MarketOrderBook` and `BestQuote` are the client's book and its cached best quote, `Mirror`
  shows that the client's pointer book has the exchange's shape, and `EndToEnd` joins the two ends.
- **The trading client.** `OrderManager` holds the slots and the risk check, `TradingSystem` puts a client and the
  exchange together with messages under way in both directions, `TradingLaws` draws the conclusions,
  `TradingProgress` says what gets done: positions follow the fills, quotes become orders; `TradingDesk` carries
  them to all tickers at once and to the class, and `PositionKeeper` compares the profit figures with cash.
- **Plumbing.** `LockFreeQueue` interleaves the atomic steps of the ring, `MemPool` is the block allocator,
  `PoolLimits` a run that exhausts one, and `Framing` (with its second module `OrderServer`) the sequenced byte
  stream.

The functions that specify a class carry no contract of their own; the class's methods are proved equal to them, and
the lemmas about them state what they achieve.

## Where the code departs from its intent

The model follows the code. Each of these is stated exactly rather than repaired.

- The ACCEPTED response has client and ticker exchanged (exchange/matching/OrderBook.cc:100-102 against
  exchange/order_server/ClientResponse.hpp:36-37). `PriceTime.Submit` emits it so. `TradingLaws.DeliveredAsWrittenIff`
  says exactly which slots it goes to and which it should: client c on ticker t loses its acknowledgement to client t
  on ticker c, unless c and t are the same number. The joint system delivers a response to the client it is about;
  `TradingLaws.SameNumberIsAsWritten` says where that is what the code does. If no client with the ticker's number has
  a socket, the order server's ASSERT on it stops the exchange: `TradingLaws.SendingStopsIff`.
- A memory pool stops the process as it hands out its last block, so a book of 256 index slots cannot have 256 price
  levels: `MatchingEngine.OrderBook.ProcessAll` says exactly which runs stop, `PoolLimits.TooManyLevels` shows one.
- CLEAR forgets the ladders but not the price index (trading/strategy/MarketOrderBook.cc:67-87):
  `LevelBook.Book.Clear` leaves a sound book exactly if it was empty, and `EndToEnd.RebuildClientBook` carries that
  through every execution up to there.
- An ADD is appended to whatever level its index slot holds: `LevelBook.Book.AddOrder` leaves a sound book exactly if
  that is the level of its price and side.
- The flags for the best quote miss the first order of an empty side, and they miss CLEAR
  (trading/strategy/MarketOrderBook.cc:23-24): `BestQuote.CacheOverRuns`, `BestQuote.CacheOverAllRuns`.
- The consumer does not check that SNAPSHOT_START and SNAPSHOT_END belong together. `MixedSnapshots.CompletionIsRightIff`
  says when a mixed snapshot is right nevertheless, `AgreedSnapshots.AgreedRunIsSafe` that comparing the two numbers
  would do, and `MixingExample.MixingCanFail` is a run from the start that goes wrong.
- A partial reduction leaves `open_vwap` as it was: `PositionKeeper.DriftIffReduction`.
- The matching engine reads its ring without testing `size()` (exchange/matching/MatchingEngine.hpp:76-82):
  `LockFreeQueue.AbortIff` and `LockFreeQueue.UnguardedCanAbort`.
- The position check overflows when the two limits add up to 2^31 or more: `OrderManager.CheckProtectsIff`.
- An order of quantity zero is accepted and never rests; once its cancel has been sent, the client's slot waits for
  ever: `TradingLaws.ZeroQuantitySticks`, `TradingLaws.StuckForGood`.

## Model

| member | source | states |
|---|---|---|
| Rings.FindSlot | exchange/matching/OrderBook.hpp:141-159 | the insertion walk ends and finds the place that keeps the ladder strictly sorted from the best price |
| Rings.InsertLevel | exchange/matching/OrderBook.hpp:126-186 | linking a level in keeps the ring well linked both ways and sorted, with the head at the best price |
| Rings.UnlinkLevel | exchange/matching/OrderBook.hpp:89-106 | unlinking a level keeps the ring well linked and sorted, and moves the head if the best level goes |
| Rings.UnlinkOrder | exchange/matching/OrderBook.hpp:113-120 | unlinking an order leaves exactly the queue without it, in order, with the right first order |
| Rings.AppendOrder | exchange/matching/OrderBook.hpp:196-200 | appending puts the order at the end of the queue and keeps both directions linked; the queue is one of its level exactly if side, price and age fit |
| LevelBook.Book.RemoveOrder | exchange/matching/OrderBook.hpp:108-124 | keeps ladders, queues and both indexes exact, and removes this order and no other |
| LevelBook.Book.AddOrder | exchange/matching/OrderBook.hpp:188-203 | stops exactly if a memory pool hands out its last block; otherwise adds this order and no other, and keeps ladders, queues and both indexes exact if and only if its index slot was free or held its own level with older orders |
| LevelBook.Book.CountsInView | exchange/matching/OrderBook.cc:8-13 | the blocks in use are the resting orders and their distinct prices |
| LevelBook.Book.TopIsBest | exchange/matching/OrderBook.cc:77-92 | the first order of the top level is ahead of every other order of its side by price, then arrival; no top level means no order |
| LevelBook.Book.TailIsLast | exchange/matching/OrderBook.hpp:75-79 | the order before the first one in the ring is the one that arrived last at that price |
| LevelBook.Book.QueueIsComplete | exchange/matching/OrderBook.hpp:70-73 | the level found by price holds every live order of that side and price and no other, so bids and asks are never confused |
| LevelBook.Book.Clear | trading/strategy/MarketOrderBook.cc:67-87 | forgets every order, and leaves a sound book if and only if there was none |
| PriceTime.BestExists | exchange/matching/OrderBook.cc:77-92 | a side with an order has a best one |
| PriceTime.MatchIsComplete | exchange/matching/OrderBook.cc:73-94 | if matching leaves a quantity over, no order on the other side is at a price the taker accepts |
| MatchingEngine.OrderBook.Trade | exchange/matching/OrderBook.cc:23-71 | one trade does to the pointer book what a fill does to the reference book, with the same responses and updates, and makes progress |
| MatchingEngine.OrderBook.CheckForMatch | exchange/matching/OrderBook.cc:73-94 | the loop ends with the orders, leaves, responses and updates of price-time matching |
| MatchingEngine.OrderBook.GetNextPriority | exchange/matching/OrderBook.hpp:75-79 | one more than the priority of the order that arrived last at that price, or 1 |
| MatchingEngine.OrderBook.Add | exchange/matching/OrderBook.cc:96-135 | refines submission to the reference book, and stops exactly if the pools cannot hold what would rest |
| MatchingEngine.OrderBook.Cancel | exchange/matching/OrderBook.cc:137-176 | refines withdrawal from the reference book, the rejection included; what that says of the order is `ResponseLaws.CancelNamesOrder` |
| MatchingEngine.OrderBook.Process | exchange/matching/MatchingEngine.hpp:26-50 | refines one request to the reference book, and stops exactly if the pools cannot hold what would rest |
| MatchingEngine.OrderBook.ProcessAll | exchange/matching/MatchingEngine.hpp:73-83 | over every run of requests the pointer book emits the reference book's messages in the same order and ends with the same resting orders, unless some request leaves more orders or price levels than the pools hold, and then it stops |
| PoolLimits.TooManyLevels | exchange/matching/OrderBook.cc:12-12 | 256 admissible bids at different prices exhaust the pool of levels |
| BookLaws.ProcessKeepsWellFormed | exchange/matching/OrderBook.cc:73-135 | every request leaves the book uncrossed, with ascending priorities along each level, unique owners and one price per index slot |
| BookLaws.ProcessAccounts | exchange/matching/OrderBook.cc:23-176 | the responses to a request are exactly the change in every order's open quantity |
| BookLaws.MatchIsPaired | exchange/matching/OrderBook.cc:28-50 | fills come in pairs of equal quantity and price on opposite sides, at a price the taker accepts |
| PublicFeed.ProcessReplays | exchange/matching/OrderBook.cc:51-70 | applying the updates of a request takes the public book to the public book after it, every step being legal for a receiver |
| ExchangeRuns.RunKeepsWellFormed | exchange/matching/OrderBook.cc:96-176 | after every run the book is well formed |
| ExchangeRuns.RunAccounts | exchange/matching/OrderBook.cc:96-176 | the responses of every run turn the ledger of open orders before it into the ledger after it |
| ExchangeRuns.RunReplays | exchange/matching/OrderBook.cc:96-176 | the updates of every run replay the public book |
| ExchangeRuns.QuantityIsConserved | exchange/matching/OrderBook.cc:28-176 | for every order of every run: accepted = executed + cancelled + resting |
| ResponseLaws.RunReports | exchange/matching/OrderBook.cc:28-176 | over every run, every response about an order names the market id of its acknowledgement; fills come in pairs at the price of the older order, within the limit of the newer; a cancellation carries the price the order rests at; a rejection names no order, and there is none |
| ResponseLaws.ProcessReports | exchange/matching/OrderBook.cc:28-176 | the same of one request, from any well-formed book |
| ResponseLaws.AcknowledgementEchoes | exchange/matching/OrderBook.cc:99-109 | the first response to a new order repeats its side, price and quantity with the next market id |
| ResponseLaws.CancelNamesOrder | exchange/matching/OrderBook.cc:137-176 | cancelling a resting order reports its market id, side, price and open quantity and tells the public it is gone; cancelling any other is rejected, changes nothing and tells the public nothing |
| ResponseLaws.ProcessNotices | exchange/matching/OrderBook.cc:51-70 | each CANCEL update carries what the order had: its last quantity after a trade; its priority and a quantity of zero after a cancel |
| ResponseLaws.ProcessIsFair | exchange/matching/OrderBook.cc:73-94 | of two resting orders the one behind is not touched while the one ahead, by price and then arrival, still rests |
| ResponseLaws.RestingPriority | exchange/matching/OrderBook.hpp:75-79 | what comes to rest has the side, price and owner of the request and a priority one beyond the last of its level, or 1 |
| ExchangeRuns.HandleReplays | exchange/matching/MatchingEngine.hpp:26-50 | a request to any ticker's book takes the public market to the public market after it |
| MarketData.SnapshotRebuilds | exchange/market_data/SnapshotSynthesizer.cc:94-126 | replaying a snapshot into any market whatever yields the published market, each order queueing behind the older ones of its price |
| SnapshotSynthesizer.Synthesizer.AddToSnapshot | exchange/market_data/SnapshotSynthesizer.cc:34-74 | exactly when an ASSERT fires, that of the pool shared by the tickers included, and that a legal update is folded as the public book does |
| SnapshotSynthesizer.Synthesizer.PublishSnapshot | exchange/market_data/SnapshotSynthesizer.cc:77-141 | the messages are the publication of the market, numbered 0, 1, 2 and so on |
| MarketDataPublisher.Publisher.Run | exchange/market_data/MarketDataPublisher.cc:39-64 | update n of the history is sent with number n and waits in the ring, however far behind the synthesizer is |
| MarketDataPublisher.Publisher.Absorb | exchange/market_data/SnapshotSynthesizer.cc:143-155 | the synthesizer folds the next update of the ring at any later time; no ASSERT fires but that of its memory pool, and that exactly if the tickers together have too many orders |
| MarketDataPublisher.Publisher.Snapshot | exchange/market_data/SnapshotSynthesizer.cc:156-159 | a snapshot is the publication of the market after the last update folded, whatever has been sent since |
| MarketDataConsumer.Consumer.CollectSnapshot | trading/market_data/MarketDataConsumer.cc:85-118 | the loop accepts exactly the queues numbered 0, 1, 2 without gap and keeps everything but the markers |
| MarketDataConsumer.Consumer.CollectIncrementals | trading/market_data/MarketDataConsumer.cc:130-180 | the loop stops at the first missing number and accepts exactly if nothing is queued beyond it |
| MarketDataConsumer.Consumer.CheckSnapshotSync | trading/market_data/MarketDataConsumer.cc:71-200 | refines the consumer's check of its queues |
| MarketDataConsumer.Consumer.QueueMessage | trading/market_data/MarketDataConsumer.cc:202-227 | refines queueing, a repeated snapshot number starting afresh |
| MarketDataConsumer.Consumer.RecvCallback | trading/market_data/MarketDataConsumer.cc:230-287 | refines the reception of a packet; which updates that delivers is `OrderlyDelivery.BatchIsDelivered` |
| OrderlyDelivery.BatchIsDelivered | trading/market_data/MarketDataConsumer.cc:253-281 | outside recovery, of any batch of updates exactly the longest beginning that continues the next number is delivered; the consumer stays outside recovery if and only if that is all of it, and queues the rest otherwise |
| OrderlyDelivery.HistoryIsDelivered | trading/market_data/MarketDataConsumer.cc:230-287 | a history received in order from the start, however it is cut into packets, is delivered exactly, without recovery |
| Recovery.ReceiveKeepsSafe | trading/market_data/MarketDataConsumer.cc:253-281 | any emitted update, in any order and any number of times, and any snapshot message that does not mix publications, keeps the protocol safe |
| Recovery.DeliveredMarketIsExchangeMarket | trading/market_data/MarketDataConsumer.cc:71-287 | in every run, outside recovery, what was delivered folds to the exchange's market after update next - 1, each update being legal where applied |
| RecoveryProgress.RecoveryEnds | trading/market_data/MarketDataConsumer.cc:71-180 | from any recovery state, one publication in order with any incrementals in between ends recovery at its SNAPSHOT_END if and only if the queued incrementals continue it without a gap |
| OrderlyDelivery.LatestPublicationEnds | trading/market_data/MarketDataConsumer.cc:71-180 | from the start or the middle of it, the rest of the publication of the latest state ends recovery with nothing left to catch up |
| RecoveryProgress.StartsPreventMixing | trading/market_data/MarketDataConsumer.cc:202-214 | if a switch of publication is first seen through its SNAPSHOT_START, the queue never mixes publications, whatever else is lost or repeated |
| RecoveryProgress.WireIsSafe | trading/market_data/MarketDataConsumer.cc:230-287 | safety of every run in which messages are lost, repeated and reordered but a new publication is first seen through its SNAPSHOT_START, except by a consumer with an empty snapshot queue |
| MixedSnapshots.CompletionIsRightIff | trading/market_data/MarketDataConsumer.cc:85-197 | whatever publications the queued snapshot comes from, and whatever genuine updates are queued: the market delivered is the exchange's if and only if the snapshot's market and the one at its SNAPSHOT_END agree on every order that the queued updates neither add nor cancel, a modification settling the quantity |
| MixedSnapshots.ForeignEnd | trading/market_data/MarketDataConsumer.cc:120-132 | the same for a snapshot closed by another publication's SNAPSHOT_END, in terms of the two states |
| Overwriting.FoldsAgreeIff | exchange/market_data/SnapshotSynthesizer.cc:37-63 | the same updates take two markets to one if and only if every order is added or cancelled by them, or modified and equal but for its quantity, or equal |
| AgreedSnapshots.AgreedIffOnePublication | trading/market_data/MarketDataConsumer.cc:75-132 | with publications arriving in order, a complete snapshot comes from one publication if and only if its SNAPSHOT_START and SNAPSHOT_END carry the same number |
| AgreedSnapshots.AgreedRunIsSafe | trading/market_data/MarketDataConsumer.cc:71-287 | safety of every run in which any message may be lost, a SNAPSHOT_START too, publications arrive in order, and each completed snapshot carries one number |
| MixingExample.MixingCanFail | trading/market_data/MarketDataConsumer.cc:120-132 | a run from the start, of genuine messages with publications in order, after which the client's market is wrong |
| MarketOrderBook.Book.LevelQuantity | trading/strategy/MarketOrderBook.cc:110-114 | the loop round the ring adds up every order of that side and price |
| MarketOrderBook.Book.Recompute | trading/strategy/MarketOrderBook.cc:106-133 | the best price and its total quantity, as defined on the bag of orders |
| MarketOrderBook.Book.OnMarketUpdate | trading/strategy/MarketOrderBook.cc:22-59 | exactly when an ASSERT fires, the pools' included; the orders after the update; that the book is sound if and only if the index slot fitted; and then the cached quotes |
| MarketOrderBook.Book.Replay | trading/strategy/MarketOrderBook.cc:22-88 | a legal stream is replayed up to and with the first CLEAR that finds orders, without an ASSERT firing; the book is sound and holds the stream's fold if and only if there is no such CLEAR; and the cached quotes as far as it got |
| MarketOrderBook.Book.ReplaySnapshot | trading/strategy/MarketOrderBook.cc:22-88 | a ticker's CLEAR and orders by ascending id, replayed into an empty pointer book, rebuild exactly the published orders with no ASSERT firing |
| BestQuote.CacheIsRight | trading/strategy/MarketOrderBook.cc:23-24 | after one update, the exact condition for the cached quote to be right |
| BestQuote.CacheAfterClear | trading/strategy/MarketOrderBook.cc:67-95 | after CLEAR the cached quote is right if and only if there was none |
| BestQuote.CacheOverRuns | trading/strategy/MarketOrderBook.cc:22-59 | in every run of ADD, MODIFY and CANCEL the cached quote is right if and only if the last event that mattered was not the first order of an empty side |
| BestQuote.CacheOverAllRuns | trading/strategy/MarketOrderBook.cc:22-95 | in every run with CLEAR, from any cached quote, it is right if and only if the last event that mattered raised a flag or left the side with the very quote that is cached |
| BestQuote.FirstOrderIsMissed | trading/strategy/MarketOrderBook.cc:23-24 | the first order of an empty side leaves the cached half invalid, where the side now quotes that order |
| BestQuote.LevelMovesBy | trading/strategy/MarketOrderBook.cc:106-133 | an update moves its level's total quantity by what it adds, takes away or changes, and by nothing else |
| Mirror.SameShape | trading/strategy/MarketOrderBook.hpp:66-183 | a sound client book with the exchange's public orders has the same prices in the same order and the same queue at each price, quantities and priorities included |
| EndToEnd.ClientMarketIsExchangeMarket | trading/market_data/MarketDataConsumer.cc:230-287 | from requests at the exchange to the client over a network that may lose any message: the updates delivered to a consumer that is up to date fold to exactly the exchange's public books |
| CatchUp.EveryExecutionCanCatchUp | trading/market_data/MarketDataConsumer.cc:230-287 | after every execution one more delivery of genuine messages, the updates not yet seen or a publication of the latest state, makes the client's market the exchange's |
| CatchUp.SentIsCarried | exchange/market_data/SnapshotSynthesizer.cc:77-141 | what the synthesizer and the publisher number are the messages the network carries |
| EndToEnd.RebuildClientBook | trading/strategy/MarketOrderBook.cc:22-88 | up to the first CLEAR that finds orders, the client's pointer book trips no ASSERT on what an execution delivered; it is sound at the end if and only if there is no such CLEAR, and then holds the fold of what was delivered, which for an up-to-date consumer is the exchange's public orders |
| EndToEnd.MirrorExchange | trading/strategy/MarketOrderBook.hpp:66-183 | the exchange's pointer book, given a ticker's requests, is sound and holds the execution's orders; the client's pointer book, given what was delivered, is sound if and only if no CLEAR finds orders; up to date, it holds the same public orders, the same price levels in the same order, and at each the same orders in the same order with the same quantities and priorities |
| OrderManager.RiskCheckIsExact | trading/strategy/RiskManager.hpp:41-53 | with limits that fit 32 bits, each of the four verdicts exactly: size first, then the resulting position, then the loss |
| OrderManager.CheckProtectsIff | trading/strategy/RiskManager.hpp:41-53 | for all 32-bit limits, the check protects the position limit if and only if the two limits add up to less than 2^31 or the position limit is 2^31 or more |
| OrderManager.QuoteIsActedOnIff | trading/strategy/OrderManager.cc:46-81 | an idle slot sends one new order with that price and quantity if and only if the price is valid and size, resulting position and loss are within the limits; a live slot sends its cancel if and only if price or quantity differ; a pending one sends nothing |
| OrderManager.ResponseMovesSlot | trading/strategy/OrderManager.cc:90-128 | an acknowledgement makes the slot live, the last fill or the cancellation dead, any other fill leaves it what remains, and a rejection leaves all as it was |
| OrderManager.OrderManager.MoveOrder | trading/strategy/OrderManager.cc:46-81 | the slot's transition and the request sent; other tickers' slots stay; when something is sent is `OrderManager.QuoteIsActedOnIff` |
| OrderManager.OrderManager.MoveOrders | trading/strategy/OrderManager.cc:83-88 | the bid first, then the ask, against one position |
| OrderManager.OrderManager.OnOrderUpdate | trading/strategy/OrderManager.cc:90-128 | the slot's reaction to a response; other tickers' slots stay |
| ClientAccount.AccountsRestrict | exchange/matching/OrderBook.cc:96-176 | the responses about one client's orders account for that client's orders by themselves |
| ClientAccount.ProcessAccepts | exchange/matching/OrderBook.cc:96-109 | a client gets one acknowledgement for its own new order and none for anything else |
| TradingSystem.EveryRunIsConsistent | trading/strategy/OrderManager.cc:46-128 | in every run the client's account of its orders differs from the exchange's by exactly the responses under way, and every pending slot has its request or acknowledgement under way |
| TradingSystem.HeadConcerns | trading/strategy/OrderManager.cc:96-128 | the next response names the order its slot holds, in the state and with the quantity the slot has, unless it is a cancel rejection |
| TradingLaws.PositionStaysWithinLimit | trading/strategy/RiskManager.hpp:41-53 | in every run the position, and the position with everything outstanding on either side, stays within the limit |
| TradingProgress.PositionIsWhatWasExecuted | trading/strategy/TradeEngine.cc:159-169 | in every run the position has moved by the signed sum of the quantities in the fills the exchange has issued to the client, less those under way |
| TradingProgress.QuoteIsAcknowledged | trading/strategy/OrderManager.cc:46-128 | from an idle slot with both channels empty, a quote within the limits and one round trip end with that order live |
| TradingProgress.ChangedQuoteCancels | trading/strategy/OrderManager.cc:46-128 | from a live slot with both channels empty, a changed quote and one round trip end with the old order gone and the slot free |
| TradingLaws.PositionProductFits | trading/strategy/PositionKeeper.hpp:51-51 | with a limit of at most 46340 the 32-bit product of two positions does not overflow |
| TradingLaws.IdleSlotIsIdleEverywhere | trading/strategy/OrderManager.cc:55-73 | a slot in INVALID or DEAD has no resting order, no new order on the way and no response on the way |
| TradingLaws.ResponsesConcernTheSlot | trading/strategy/OrderManager.cc:90-128 | every response under way that names a side is about the order in that side's slot |
| TradingLaws.AtMostOneRestingOrder | trading/strategy/OrderManager.cc:46-81 | the only order of the client that can rest on a side is the one in the slot |
| TradingLaws.PendingSlotIsAnswered | trading/strategy/OrderManager.cc:75-79 | a pending slot's request or answer is under way, except for the cancel of a quantity of zero |
| TradingLaws.QuietSystemAgrees | trading/strategy/OrderManager.cc:46-128 | with both channels empty the client's account is the exchange's |
| TradingLaws.SizedQuotesNeverStick | trading/strategy/OrderManager.cc:46-128 | if no quote has quantity zero, no slot is pending once the channels are empty |
| TradingLaws.StuckForGood | trading/strategy/OrderManager.cc:75-79 | a slot whose cancel is for quantity zero never changes again, in any run |
| TradingLaws.ZeroQuantitySticks | exchange/matching/OrderBook.cc:110-114 | a run that leads there |
| TradingLaws.ResponsesAreAddressed | exchange/matching/OrderBook.cc:100-108 | all responses to a request carry the right client and ticker if and only if it is no new order or client and ticker are equal |
| TradingLaws.DeliveredAsWrittenIff | exchange/matching/OrderBook.cc:100-108 | whichever book a request goes to, the fields as written deliver to client c's slots for ticker t what belongs there, if and only if the request is not, for c other than t, a new order of c on t or of t on c |
| TradingLaws.SameNumberIsAsWritten | exchange/matching/OrderBook.cc:100-108 | for a client and a ticker of the same number, the joint system's steps are those of the fields as written, and no other book delivers anything there |
| TradingLaws.SendingStopsIff | exchange/order_server/OrderServer.hpp:40-41 | with sockets for the requesting client and those with resting orders, every response to a request can be sent if and only if it is no new order or a client with the ticker's number has a socket too |
| TradingDesk.StepIsSeen | trading/strategy/OrderManager.cc:46-128 | seen from any ticker, every step of a client on all tickers is a step of that ticker's joint system, an order id used up, or nothing |
| TradingDesk.EveryTickerStaysWithinLimit | trading/strategy/RiskManager.hpp:41-53 | in every run of a client on all tickers, every ticker's position stays within its limit with what is outstanding, and its account of orders is consistent |
| TradingProgress.EveryPositionIsWhatWasExecuted | trading/strategy/PositionKeeper.hpp:43-43 | in every run over all tickers each ticker's position has moved by what position keeping makes of that ticker's fills, less those under way |
| TradingDesk.Trader.MoveOrder | trading/strategy/OrderManager.cc:46-81 | the order manager's slots, ids and requests over all tickers are those of the desk after the step |
| TradingDesk.Trader.OnResponse | trading/strategy/TradeEngine.cc:159-169 | slots and positions over all tickers are those of the desk after hearing the response; what the positions add up to is `TradingProgress.EveryPositionIsWhatWasExecuted` |
| PositionKeeper.PositionInfo.AddFill | trading/strategy/PositionKeeper.hpp:36-66 | the open profit is the position at the price of the fill less its basis; realised profit less open basis moves by the cost of the fill and the slip of a partial reduction; the total is realised and open profit |
| PositionKeeper.PositionInfo.UpdateBBO | trading/strategy/PositionKeeper.hpp:76-88 | a two-sided quote makes the open profit the position at the mid price less its basis, and the total that and the realised profit; any other quote leaves the open profit |
| PositionKeeper.FillImplies | trading/strategy/PositionKeeper.hpp:45-55 | opening, closing and flipping move the books by exactly the cash paid; a partial reduction by that and its slip |
| PositionKeeper.TotalIsCashPlusPosition | trading/strategy/PositionKeeper.hpp:56-66 | after any fills the total is cash plus position at the last price, less the exact drift |
| PositionKeeper.NoReductionNoDrift | trading/strategy/PositionKeeper.hpp:45-55 | fills without partial reductions do not drift |
| PositionKeeper.DriftIffReduction | trading/strategy/PositionKeeper.hpp:47-55 | at positive prices a fill drifts if and only if it is a partial reduction: too low for long, too high for short positions |
| PositionKeeper.SellingInTwoStepsShowsALoss | trading/strategy/PositionKeeper.hpp:47-55 | three fills that cost nothing and are booked as a loss |
| PositionKeeper.MarkIsCashPlusPosition | trading/strategy/PositionKeeper.hpp:76-88 | after a two-sided quote the total is cash plus position at the mid price, less the drift |
| LockFreeQueue.ReadsAreAPrefix | common/LockFreeQueue.hpp:20-38 | in every interleaving the values used are the values written, whole and in order, and late copies are the same values |
| LockFreeQueue.GuardedNeverAborts | exchange/order_server/OrderServer.hpp:28-46 | for a consumer that tests size() the ASSERT never fires |
| LockFreeQueue.TestPassesIff | exchange/order_server/OrderServer.hpp:28-30 | the test sends the consumer back if and only if nothing is counted, and otherwise lets it use the element |
| LockFreeQueue.EveryElementIsReached | common/LockFreeQueue.hpp:20-38 | from every reachable state between two writes, the consumer's own steps end with everything written used and copied in order and nothing counted |
| LockFreeQueue.AbortIff | exchange/matching/MatchingEngine.hpp:76-82 | without the test the ASSERT fires if and only if the producer is between index and count and all is taken |
| LockFreeQueue.UnguardedCanAbort | exchange/matching/MatchingEngine.hpp:76-82 | a run of eight steps in which it fires |
| LockFreeQueue.LateCopyIsSafeIff | exchange/market_data/MarketDataPublisher.cc:54-59 | the slot just released is the producer's next slot if and only if N - 1 elements are pending |
| MemPool.MemPool.Allocate | common/Mempool.hpp:27-38 | takes a free block, keeps the others' contents, and stops with "out of space" exactly if it was the last free block |
| MemPool.MemPool.Deallocate | common/Mempool.hpp:40-49 | gives back exactly a block in use |
| MemPool.MemPool.UpdateNextFreeIndex | common/Mempool.hpp:52-64 | the scan ends at the first free block going round, or reports that there is none |
| MemPool.PoolIsSafe | common/Mempool.hpp:27-49 | in every run the next block is free and the blocks in use are allocations less deallocations, at most N - 1 |
| Framing.ChunkingIsInvisible | exchange/order_server/OrderServer.hpp:58-92 | however the stream is cut into chunks, the records are those of the whole stream |
| OrderServer.OrderServer.RecvCallBack | exchange/order_server/OrderServer.hpp:53-94 | handles the whole records of the buffer in order and keeps the rest; the copy to the front never overlaps |
| OrderServer.AcceptedWithoutGap | exchange/order_server/OrderServer.hpp:66-88 | whatever arrives on whatever sockets, each client's accepted requests are numbered 1, 2, 3 and so on |
| OrderServer.OrderServer.SendResponses | exchange/order_server/OrderServer.hpp:28-48 | responses go out in order, each to the socket of the client it names and numbered 1, 2, 3 and so on for that client, until one names a client without a socket |
| OrderServer.SentIsAccepted | trading/order_gateway/Gateway.cc:50-67 | among any traffic on other sockets, none of which claims the client first, the requests accepted from a client are exactly those its gateway sent, in order, as far as they have arrived, however the streams are cut |

## Left out

- MatchingEngine.OrderBook.Process: assumes order ids and clients within the arrays, no reuse of an order id that is
  still resting, and live prices that share an index slot only if they are equal, as the source does without checking.
- LevelBook.Book.AddOrder: assumes that the order's owner is not in the order index yet, which the exchange assumes of
  its clients and the client's ASSERT establishes.
- LevelBook.Book.Clear: a book that CLEAR has left unsound is not followed further.
- MarketOrderBook.Book.Replay: says nothing of what comes after a CLEAR that finds orders, which a second recovery of a
  client that holds orders always sends.
- EndToEnd.RebuildClientBook: the same, and fewer than 2^20 new orders a ticker.
- EndToEnd.MirrorExchange: the same, and fewer than 2^20 new orders a ticker.
- RecoveryProgress.WireIsSafe: a consumer with something in its snapshot queue does not lose the SNAPSHOT_START of the
  next publication; `AgreedSnapshots` does without that.
- EndToEnd.ClientMarketIsExchangeMarket: publications do not overtake each other, each completed snapshot carries one
  number, which the consumer could test and does not, and there are fewer than 2^20 new orders a ticker.
- LevelBook.Book.RemoveOrder: one pointer book stands for the exchange's and the client's copy of the same surgery
  (trading/strategy/MarketOrderBook.hpp:66-183). It counts the blocks of its two memory pools; which block an object
  occupies is left to `MemPool`, and freed objects to garbage collection.
- MarketOrderBook.Book.OnMarketUpdate: assumes a market id within the order array, and does not follow the quotes of a
  book that a misplaced ADD has left unsound.
- LockFreeQueue.ReadsAreAPrefix: assumes that no write begins while N - 1 elements are pending, which the source does
  not check, and sequentially consistent atomics.
- MarketDataPublisher.Publisher.Run: the ring hands over in order, as `LockFreeQueue` proves of it.
- AgreedSnapshots.AgreedRunIsSafe: publications may not overtake each other; the condition on completed snapshots is one
  that the consumer could test and does not.
- MixedSnapshots.CompletionIsRightIff: about the market as the fold of what is delivered; an ASSERT of the client's book
  may fire on the way there.
- TradingSystem.EveryRunIsConsistent: one client, one ticker with others showing as used-up order ids, which
  `TradingDesk` makes good, and an ACCEPTED response that reaches its client.
- TradingDesk.EveryTickerStaysWithinLimit: an ACCEPTED response that reaches its client.
- TradingProgress.QuoteIsAcknowledged: assumes that the new order fits the book: its ids are within the arrays and its
  index slot is free or of its price, as `MatchingEngine.OrderBook.Process` does.
- ExchangeRuns.HandleReplays: market ids below 2^20, the size of the arrays they index at the receivers.
- TradingLaws.PositionStaysWithinLimit: the loss limit is an arbitrary further refusal, and requests sent around the
  order manager are excluded.
- PositionKeeper.TotalIsCashPlusPosition: real arithmetic in place of floating point, positions that do not overflow.
- OrderServer.OrderServer.RecvCallBack: client ids outside the server's tables, and the binary layout of a record, which
  is a parameter.
- Recovery.DeliveredMarketIsExchangeMarket: packets hold whole messages.
- The price index, the order index, positions and averages start null or zero, where the source leaves them uninitialised
  (exchange/matching/OrderBook.hpp:43-50, trading/strategy/PositionKeeper.hpp:12-16).
- Signed overflow, which the source's language leaves undefined, wraps around in the risk check.
- Quantities, ids, priorities and sequence numbers are unbounded except in the risk check; book quantities never
  exceed those that were sent.
- Sockets, multicast membership, threads, clocks, logging and the programs' main functions.
- The request sequencer's sort by receive time, and the gateway's receiving loop, which is the server's with one client.
- The textual dumps of the books and their validity check.
- The feature engine, the market maker and the liquidity taker: their quotes are arbitrary inputs here.
- TRADE updates, which the exchange never emits.
