# A verified model of the order-matching engine core

This project models the core of a spot-exchange backend in Dafny:

- **The matching engine.** An incoming order is matched against resting orders of the opposite side. The resting orders sit in Redis sorted sets, one per symbol and side (`BTCUSDT:BUY`, `BTCUSDT:SELL`). Each order is scored by `price·10⁷ ∓ modifiedAt`.
  - A MARKET order is matched without a price check. Every other order type stops at the first opponent that does not cross.
  - Each match fills `min(unfilled, unfilled)` on both orders and restamps their status. It builds a trade priced at the resting order. It then removes or re-scores the resting order, using its encoding before the fill as its identity.
  - A priced remainder then rests in the book.
  - Everything sent to Kafka is returned as an ordered event log: the trade tape, the candle seed, book deltas, per-user order updates and the persistence messages.
- **The persistence pipeline.** A consumer batches matched-trade messages. It flushes at 10 messages or on a periodic tick. A flush coalesces order snapshots per order id and makes one transactional repository call. That call upserts the `orders` rows, with an `ON DUPLICATE KEY UPDATE` column list, and appends the `trades` rows.
- **The candle services.**
  - The per-minute job builds the 1m OHLCV bar from the minute's trades, with a flat-bar fallback. On 5-minute and hour boundaries it also builds the 5m and 1h bars.
  - The start-up back-fill splits the missing range into 32 slices and generates a random walk of 1m bars in batches of 1000. It then aggregates them into aligned 5m and 1h windows.
- **The outbound message shaping.** The user-order DTO, and the order-book delta topic and payload.

Modelling choices:

- **Amounts.** Decimal amounts (`BigDecimal`, scale 8) are exact `real`s.
- **Time.** Engine instants are epoch milliseconds. Candle timestamps are epoch seconds. Each operation's clock reading is a parameter.
- **Order encoding.** The JSON encoding of an order, which is also a book member, is the value `Model.OrderRecord` of its 15 scalar fields. So the encoding is injective, and parsing a member and re-encoding it gives back the member.
- **Order book.** A sorted set is a map from member to score.
- **Kafka.** Sends are returned as `Matching.Event` sequences.
- **Database.** The tables are the fields of `TradeRepository.Store`. Database queries, the random draws and the previously stored data are function parameters.

Two behaviours of the code are worth stating outright:

- A fill never changes `modifiedAt`, so a partially filled resting order keeps its score and its rank when it is re-added (`Matching.FillKeepsScore`).
- The consumer's flush threshold counts messages, not distinct orders (`MatchedOrderConsumer.Consumer.ConsumeTradeOrdersMessage`).

## Model

| member | source | states |
|---|---|---|
| Util.MinReal | src/main/java/com/matching/service/NewOrderMatchingService.java:92 | `BigDecimal.min`: the result is one of the two amounts and is at most both |
| Model.Order.constructor | src/main/java/com/matching/model/Order.java:41-71 | a new order has filled 0, status PENDING, `createdAt`, `updatedAt` and `modifiedAt` each set from its own clock reading, no price/stop/take-profit, and no trades |
| Model.Order.WithFields | src/main/java/com/matching/model/Order.java:81-97 | the all-arguments constructor puts each of the 15 arguments into the same-named field (the encoding equals the argument record) |
| Model.TradeSnapshot | src/main/java/com/matching/service/NewOrderMatchingService.java:118 | a trade, as serialised, carries both orders' current encodings and the trade's own id, symbol, price, quantity, trade time, direction and taker id |
| Model.DirectionOf | src/main/java/com/matching/model/Trade.java:44-45 | the direction tag has at most 4 characters, is "buy" or "sell", and is "buy" exactly for a BUY taker |
| OrderBook.RedisKeyInjective | src/main/java/com/matching/service/NewOrderbookService.java:134-136 | two book keys are equal if and only if symbol and side are equal (the `:BUY`/`:SELL` suffixes never collide) |
| OrderBook.OpponentKeyIsOppositeSide | src/main/java/com/matching/service/NewOrderbookService.java:38 | the best-opponent lookup reads the opposite side's key of the same symbol, never the order's own |
| OrderBook.SellScoreOrder | src/main/java/com/matching/service/NewOrderbookService.java:85-92 | for two sells, `a` scores lower than `b` if and only if `(b.price − a.price)·10⁷ > a.modifiedAt − b.modifiedAt` |
| OrderBook.BuyScoreOrder | src/main/java/com/matching/service/NewOrderbookService.java:85-92 | for two buys, `a` scores higher than `b` if and only if `(a.price − b.price)·10⁷ > a.modifiedAt − b.modifiedAt` |
| OrderBook.ScorePriorityWhenGapIsWide | src/main/java/com/matching/service/NewOrderbookService.java:89-90 | price-then-time priority implies score priority when every price gap ×10⁷ exceeds the modification-time gap; at equal price, the earlier `modifiedAt` always wins |
| OrderBook.ScoreInvertsPriceExample | src/main/java/com/matching/service/NewOrderbookService.java:89-90 | a sell at 100.00 modified 200 s after a sell at 100.01 ranks behind it, although it has the better price |
| OrderBook.BestExists | src/main/java/com/matching/service/NewOrderbookService.java:43-57 | a non-empty sorted set has a lowest-scored and a highest-scored member |
| OrderBook.ParseOrderFromJson | src/main/java/com/matching/service/NewOrderbookService.java:61-69 | parsing a member gives a fresh order whose encoding is that member |
| OrderBook.OrderBookStore.GetBestOpponentOrder | src/main/java/com/matching/service/NewOrderbookService.java:36-58 | null exactly when the opposite set is empty; otherwise a fresh order encoding a member of lowest score (for a BUY) or highest score (for a SELL) |
| OrderBook.OrderBookStore.SaveOrderToRedis | src/main/java/com/matching/service/NewOrderbookService.java:72-82 | the order's encoding is added at its score under its own key; every other member and key is unchanged |
| OrderBook.OrderBookStore.RemoveOrderFromRedis | src/main/java/com/matching/service/NewOrderbookService.java:95-103 | exactly the member equal to the given original encoding is removed from the order's key; every other member of every key is kept |
| OrderBook.OrderBookStore.UpdateOrderInRedis | src/main/java/com/matching/service/NewOrderbookService.java:106-119 | the original encoding is removed, then the current encoding is added at its recomputed score |
| OrderBook.SaveAllOrdersAndTrades | src/main/java/com/matching/service/NewOrderbookService.java:150-161 | exactly one message per trade, in list order, each carrying (buy order, sell order, trade) as they are at send time |
| Matching.FillKeepsScore | src/main/java/com/matching/service/NewOrderMatchingService.java:232-244 | a fill keeps price and `modifiedAt`, so the order's score, and hence its rank, is unchanged |
| Matching.UpdateOrdersStatus | src/main/java/com/matching/service/NewOrderMatchingService.java:232-244 | each listed order becomes COMPLETED if its unfilled quantity is 0, else PARTIALLY_FILLED, with `updatedAt` restamped; every other field is unchanged |
| Matching.ApplyFill | src/main/java/com/matching/service/NewOrderMatchingService.java:92-102 | the matched quantity is the smaller unfilled quantity; both orders move it from unfilled to filled and get their status and time restamped |
| Matching.ReplaceOpponent | src/main/java/com/matching/service/NewOrderMatchingService.java:126-130 | an exhausted opponent is removed by its encoding before the fill; otherwise that member is replaced by the current encoding at its score |
| Matching.MatchStep | src/main/java/com/matching/service/NewOrderMatchingService.java:92-140 | one match: both orders are filled by `min(unfilled, unfilled)`, the book takes one step, and the trade is built priced at the opponent. The buy/sell order follows the taker's side, with the taker's id and direction. The sends are trade, kline, negative delta of the matched quantity, and the opponent's update, in that order |
| Matching.StepShrinks | src/main/java/com/matching/service/NewOrderMatchingService.java:126-130 | a match never grows the opposite set and strictly shrinks it when the opponent is exhausted (the loop's termination measure) |
| Matching.MatchTurn | src/main/java/com/matching/service/NewOrderMatchingService.java:79-144 | one loop iteration: either the loop stops (empty opposite side or, under a price check, a best opponent that does not cross) or one match extends the chain, and the opposite set plus "incoming not exhausted" decreases |
| Matching.RunLoop | src/main/java/com/matching/service/NewOrderMatchingService.java:78-145 | the loop ends only when the incoming order is exhausted, the opposite side is empty, or the best opponent does not cross; trade `k` is the one built for match `k` |
| Matching.PersistTrades | src/main/java/com/matching/service/NewOrderMatchingService.java:147-151 | after the loop, one persistence message per trade in order; each carries the incoming order's final state, and none is sent without trades |
| Matching.MatchLoop | src/main/java/com/matching/service/NewOrderMatchingService.java:74-152 | both matching loops: the run is a chain of matches against the successive best opponents. The book afterwards is the chain's replay. The sends are the per-match sends followed by the persistence messages |
| Matching.IncomingAlongChain | src/main/java/com/matching/service/NewOrderMatchingService.java:92-99 | along the matches the incoming order keeps `filled + unfilled`, its filled part grows by exactly the traded total, and its unfilled quantity never goes negative. Its status matches what is left, and every field but the four fill fields is unchanged |
| Matching.OpponentAlongChain | src/main/java/com/matching/service/NewOrderMatchingService.java:98-102 | each opponent keeps `filled + unfilled`, never goes negative, gets the status of its remainder, keeps id, side and score, and the trade price is its price |
| Matching.AtMostOnePartial | src/main/java/com/matching/service/NewOrderMatchingService.java:92-99 | every match but the last exhausts its opponent (COMPLETED), so at most one opponent is left partially filled |
| Matching.TradesWithinLimit | src/main/java/com/matching/service/NewOrderMatchingService.java:88-91 | under the price check, a BUY never trades above its limit and a SELL never below it |
| Matching.StepKeeps | src/main/java/com/matching/service/NewOrderMatchingService.java:126-130 | a match keeps the book well formed (members under their own key at their own score), all resting quantities positive, and no MARKET order resting |
| Matching.BookAfterWellFormed | src/main/java/com/matching/service/NewOrderMatchingService.java:78-145 | every prefix of the matching loop leaves the book well formed |
| Matching.BookAfterKeeps | src/main/java/com/matching/service/NewOrderMatchingService.java:78-145 | every prefix of the matching loop keeps resting quantities positive and market orders out of the book |
| Matching.RestRemainder | src/main/java/com/matching/service/NewOrderMatchingService.java:55-70 | a non-MARKET order with quantity left is added to its own side at its score with a positive delta equal to that quantity. Each non-MARKET order gets exactly one update; a MARKET order never rests and gets none |
| Matching.MatchAndRest | src/main/java/com/matching/service/NewOrderMatchingService.java:45-71 | the whole handling of an order whose price is present where needed: the matching loop chosen by type, then the remainder rule, with the full book and event log |
| Matching.HandleNewOrder | src/main/java/com/matching/service/NewOrderMatchingService.java:45-71 | fails (`ok` false) exactly for a non-MARKET order with no price and quantity left, changing nothing; otherwise as `MatchAndRest`. The book never gets a non-positive remainder or a MARKET order |
| MatchedOrderConsumer.MergeOrders | src/main/java/com/matching/consumer/MatchedOrderConsumer.java:115-121 | the merged snapshot takes filled, unfilled, status and `updatedAt` from the newer one and keeps every other field of the existing one |
| MatchedOrderConsumer.MergeOrdersAbsorbs | src/main/java/com/matching/consumer/MatchedOrderConsumer.java:115-121 | merging in two snapshots in turn equals merging in only the later one; merging a snapshot with itself changes nothing |
| MatchedOrderConsumer.FirstSeenIds | src/main/java/com/matching/consumer/MatchedOrderConsumer.java:106-107 | the ids of the coalesced list are pairwise different and are exactly the ids in the batch |
| MatchedOrderConsumer.MergedMap | src/main/java/com/matching/consumer/MatchedOrderConsumer.java:94-99 | the map of merged orders has exactly the batch's ids as keys, each entry under its own id |
| MatchedOrderConsumer.MergedEntry | src/main/java/com/matching/consumer/MatchedOrderConsumer.java:94-99 | the entry of an id is the first-seen snapshot merged with the last-seen one |
| MatchedOrderConsumer.Coalesce | src/main/java/com/matching/consumer/MatchedOrderConsumer.java:106-107 | the coalesced orders are listed one per distinct id |
| MatchedOrderConsumer.CoalesceSpec | src/main/java/com/matching/consumer/MatchedOrderConsumer.java:90-107 | exactly one entry per distinct order id, and each entry keeps the first-seen snapshot's other fields while taking the fill state of the latest |
| MatchedOrderConsumer.OneOrderOneEntry | src/main/java/com/matching/consumer/MatchedOrderConsumer.java:90-107 | ten messages about one order give one order row, not ten |
| MatchedOrderConsumer.MergeInto | src/main/java/com/matching/consumer/MatchedOrderConsumer.java:96 | one `HashMap.merge` step keeps the map and its id order equal to the specification of the longer prefix |
| MatchedOrderConsumer.CoalesceBatch | src/main/java/com/matching/consumer/MatchedOrderConsumer.java:89-107 | the buy and sell order lists are the coalesced snapshots, and the trade list is every message's trade in arrival order, without deduplication |
| MatchedOrderConsumer.ProcessOrderBatch | src/main/java/com/matching/consumer/MatchedOrderConsumer.java:89-111 | a flush is one repository call with the coalesced buy orders, the coalesced sell orders and all trades |
| MatchedOrderConsumer.Consumer.constructor | src/main/java/com/matching/consumer/MatchedOrderConsumer.java:23-25 | the consumer starts with an empty batch and no pending flag |
| MatchedOrderConsumer.Consumer.ConsumeTradeOrdersMessage | src/main/java/com/matching/consumer/MatchedOrderConsumer.java:60-87 | non-TRADE_ORDER envelopes and parse failures change nothing. Otherwise the message is appended; at 10 messages the batch is flushed and emptied. The flag holds exactly when the batch is non-empty, and the batch stays below 10 |
| MatchedOrderConsumer.Consumer.CheckAndPersistBatch | src/main/java/com/matching/consumer/MatchedOrderConsumer.java:33-51 | a tick flushes and empties the whole batch when the flag is set, and does nothing otherwise |
| MatchedOrderConsumer.EmptyFlushChangesNothing | src/main/java/com/matching/consumer/MatchedOrderConsumer.java:39-47 | flushing an empty batch would change no table, so skipping the tick without pending messages loses nothing |
| TradeRepository.TradeRowOf | src/main/java/com/matching/repository/CustomTradeRepositoryImpl.java:62-73 | a trade row holds the trade's fields, with the two orders by id only |
| TradeRepository.TradeRows | src/main/java/com/matching/repository/CustomTradeRepositoryImpl.java:62-74 | one row per trade, in list order |
| TradeRepository.Upsert | src/main/java/com/matching/repository/CustomTradeRepositoryImpl.java:28-55 | a new id inserts the whole snapshot. An existing id overwrites every column but `user_id`, `symbol` and `created_at`, which keep their old values. Other rows are unchanged |
| TradeRepository.UpsertIdempotent | src/main/java/com/matching/repository/CustomTradeRepositoryImpl.java:28-35 | upserting the same snapshot twice gives the same table as once |
| TradeRepository.UpsertCommutes | src/main/java/com/matching/repository/CustomTradeRepositoryImpl.java:38-56 | upserts of different ids commute, so the order of the coalesced lists does not matter |
| TradeRepository.UpsertAllKeys | src/main/java/com/matching/repository/CustomTradeRepositoryImpl.java:38-56 | after the upsert loop, the ids are the old ones plus the upserted ones, and rows of ids not upserted are unchanged |
| TradeRepository.UpsertAllDistinct | src/main/java/com/matching/repository/CustomTradeRepositoryImpl.java:38-56 | with pairwise different ids, each upserted id ends with exactly the row its single upsert writes |
| TradeRepository.DuplicateBlocks | src/main/java/com/matching/repository/CustomTradeRepositoryImpl.java:59-74 | a trade whose id is already stored, or was inserted earlier in the same call, makes the insert fail |
| TradeRepository.SaveAll | src/main/java/com/matching/repository/CustomTradeRepositoryImpl.java:20-78 | one transaction: on failure both tables are unchanged; on success the old trade rows are kept as a prefix, followed by one new row per trade |
| TradeRepository.SaveAllKeepsTradeIdsUnique | src/main/java/com/matching/repository/CustomTradeRepositoryImpl.java:59-74 | a trade table with unique ids keeps unique ids after any call |
| TradeRepository.Store.UpsertOrders | src/main/java/com/matching/repository/CustomTradeRepositoryImpl.java:38-56 | the loop upserts every order in turn (buy orders, then sell orders) and leaves the trade table alone |
| TradeRepository.Store.InsertTrades | src/main/java/com/matching/repository/CustomTradeRepositoryImpl.java:58-74 | the inserts succeed if and only if all ids are new and pairwise different; then the rows are appended, else nothing changes |
| TradeRepository.Store.SaveAllOrdersAndTrades | src/main/java/com/matching/repository/CustomTradeRepositoryImpl.java:20-78 | the call's result and new tables are those of the transactional `SaveAll` (a failed trade insert rolls back the order upserts too) |
| UserOrderProducer.SendOrderUpdate | src/main/java/com/matching/producer/UserOrderProducer.java:25-29 | one message on "user-order-updates" keyed by the order's user id |
| UserOrderProducer.DTORoundTrip | src/main/java/com/matching/producer/UserOrderProducer.java:32-51 | the DTO copies the order's fields and names its enums, so reading the names back recovers the order. Stop and take-profit prices are always null, and `createdAt`, `updatedAt` and `modifiedAt` are each the same instant at offset UTC+8 |
| UserOrderProducer.ConvertToDTOInjective | src/main/java/com/matching/producer/UserOrderProducer.java:32-51 | two orders with the same DTO differ at most in stop and take-profit price |
| OrderBookDeltaProducer.LowerChar | src/main/java/com/matching/producer/OrderBookDeltaProducer.java:20 | in the model, lower-casing maps A–Z to a–z and leaves every other character alone (ASCII folding; see Left out) |
| OrderBookDeltaProducer.Topic | src/main/java/com/matching/producer/OrderBookDeltaProducer.java:20 | in the model, the topic starts with the prefix, is as long as prefix and symbol together, and has no ASCII upper-case letter after the prefix |
| OrderBookDeltaProducer.SendDelta | src/main/java/com/matching/producer/OrderBookDeltaProducer.java:19-26 | exactly one send, to the symbol's topic, with the delta payload |
| OrderBookDeltaProducer.DeltaRoundTrip | src/main/java/com/matching/producer/OrderBookDeltaProducer.java:21-22 | for quote-free arguments the payload `{"symbol":…,"side":…,"price":…,"unfilledQuantity":…}` parses back to the four arguments |
| OrderBookDeltaProducer.DeltaMessageInjective | src/main/java/com/matching/producer/OrderBookDeltaProducer.java:21-22 | for quote-free arguments, two payloads are equal if and only if the arguments are |
| OrderBookDeltaProducer.UnescapedFieldsCollide | src/main/java/com/matching/producer/OrderBookDeltaProducer.java:21-22 | without escaping, different arguments that contain a separator give the same payload |
| OrderBookDeltaProducer.NegativeDeltaSurvives | src/main/java/com/matching/producer/OrderBookDeltaProducer.java:19-22 | a quantity `"-" + matched` is carried verbatim, so the leading minus reaches the reader |
| OrderBookDeltaProducer.TopicIgnoresCase | src/main/java/com/matching/producer/OrderBookDeltaProducer.java:20 | symbols differing only in case share one topic |
| OrderBookDeltaProducer.DefaultTopicExample | src/main/java/com/matching/producer/OrderBookDeltaProducer.java:12-20 | with the default prefix, BTCUSDT's topic is "order-book-delta-btcusdt" |
| Candles.TruncateToMinute | src/main/java/com/matching/service/MarketDataService.java:27 | the truncated instant is the whole minute at or just before the instant |
| Candles.MaxOf | src/main/java/com/matching/service/MarketDataService.java:68 | the maximum is one of the values and at least every value |
| Candles.MinOf | src/main/java/com/matching/service/MarketDataService.java:69 | the minimum is one of the values and at most every value |
| Candles.SumOfNonNegative | src/main/java/com/matching/service/MarketDataService.java:70 | a sum of non-negative volumes is non-negative |
| Candles.ReduceBounds | src/main/java/com/matching/service/MarketDataService.java:114-130 | the reduced bar spans every input bar; its close is in range and it is well formed when the inputs are |
| MarketDataService.HandleNoDataSituation | src/main/java/com/matching/service/MarketDataService.java:86-103 | without a previous bar nothing is produced; with one, a flat 1m bar at the minute with open = high = low = close = the previous close and volume 0 |
| MarketDataService.OneMinuteBarWithTrades | src/main/java/com/matching/service/MarketDataService.java:51-84 | with trades: the 1m bar opens at the previous close (0 without one) and closes at the last trade's price. High and low are the highest and lowest trade prices, so low ≤ close ≤ high |
| MarketDataService.OpenOutsideRange | src/main/java/com/matching/service/MarketDataService.java:57-70 | the open is not held to [low, high]: a previous close of 100 and one trade at 50 give open 100 above high 50 |
| MarketDataService.HourlyImpliesFiveMinute | src/main/java/com/matching/service/MarketDataService.java:40-47 | every minute that triggers the 1h bar also triggers the 5m bar |
| MarketDataService.AggregateAndSaveAggregatedData | src/main/java/com/matching/service/MarketDataService.java:106-133 | nothing is saved exactly when there are no 1m bars; otherwise the bar is stamped `minutes` before the current minute, opens at the first bar's open and closes at the last bar's close |
| MarketDataService.SaveSymbol | src/main/java/com/matching/service/MarketDataService.java:33-47 | one symbol's saves: the 1m bar if any, then the 5m bar on a 5-minute boundary, then the 1h bar on an hour boundary |
| MarketDataService.AggregateAndSaveMarketData | src/main/java/com/matching/service/MarketDataService.java:26-49 | the saves of one run are each listed symbol's saves in symbol order, at the truncated current minute |
| MarketDataService.OneMinuteSaveFacts | src/main/java/com/matching/service/MarketDataService.java:73-83 | a saved 1m bar carries the symbol, "1m" and the start of the minute it was built for, with its close in range |
| MarketDataService.AggregatedSaveFacts | src/main/java/com/matching/service/MarketDataService.java:114-130 | a saved 5m/1h bar carries the symbol, the time frame and the window start, with its close in range when the 1m bars' are |
| MarketDataService.SymbolSavesFacts | src/main/java/com/matching/service/MarketDataService.java:32-48 | every bar a symbol's step saves is its 1m bar stamped one minute back, a 5m bar stamped five minutes back only on a 5-minute boundary, or a 1h bar stamped an hour back only on an hour boundary; closes stay in range when the stored 1m bars' are |
| MarketDataService.AllSavesFacts | src/main/java/com/matching/service/MarketDataService.java:26-49 | every bar saved by a run belongs to one of the symbols and obeys the per-symbol facts |
| MarketDataInitialization.JavaRem | src/main/java/com/matching/service/MarketDataInitializationService.java:97-98 | Java's `%` on `long`: the remainder takes the dividend's sign, is smaller in size than the divisor, and completes the truncated quotient |
| MarketDataInitialization.DefaultsForListedSymbols | src/main/java/com/matching/service/MarketDataInitializationService.java:207-215 | a missing close falls back to 50000 for BTCUSDT and 4000 for ETHUSDT, the same values as the start-price default; for every other symbol `getLastPrice` falls back to 50000 while the start-price default is 4000 |
| MarketDataInitialization.SlicesCover | src/main/java/com/matching/service/MarketDataInitializationService.java:54-61 | the 32 slices cover [start, end) contiguously: the first starts at start, each ends where the next begins, the last ends at end, and none is reversed |
| MarketDataInitialization.PlanSlices | src/main/java/com/matching/service/MarketDataInitializationService.java:59-65 | the slice loop produces, for each of the 32 slices, its bounds and its starting price |
| MarketDataInitialization.ClampClose | src/main/java/com/matching/service/MarketDataInitializationService.java:224-239 | the close is held to [30000, 70000] for BTCUSDT and [2000, 6000] for ETHUSDT, and left as is for other symbols |
| MarketDataInitialization.GenerateMarketData | src/main/java/com/matching/service/MarketDataInitializationService.java:217-254 | a generated bar is a "1m" bar of the symbol at the minute, opening at the last price |
| MarketDataInitialization.GeneratedBarBounds | src/main/java/com/matching/service/MarketDataInitializationService.java:217-241 | from a non-negative price and draws in [0, 1): high ≥ max(open, close), low ≤ min(open, close), close ≥ 0, and volume in [0, 100) |
| MarketDataInitialization.GeneratedMove | src/main/java/com/matching/service/MarketDataInitializationService.java:218-219 | the random move stays within 0.5% of the last price and keeps it non-negative |
| MarketDataInitialization.GeneratedCloseBounds | src/main/java/com/matching/service/MarketDataInitializationService.java:224-236 | the close obeys the per-symbol clamp, and for other symbols moves at most 0.5% |
| MarketDataInitialization.Generate | src/main/java/com/matching/service/MarketDataInitializationService.java:166-169 | one bar per minute: bar `k` is a "1m" bar of the symbol stamped `start + 60k`, and the first opens at the initial price |
| MarketDataInitialization.GeneratedWalkContinuous | src/main/java/com/matching/service/MarketDataInitializationService.java:164-169 | each generated bar opens at the previous bar's close |
| MarketDataInitialization.GeneratedBarsWellFormed | src/main/java/com/matching/service/MarketDataInitializationService.java:164-169 | every generated bar is well formed with a non-negative close |
| MarketDataInitialization.GeneratedGrid | src/main/java/com/matching/service/MarketDataInitializationService.java:166-169 | a slice's bars are stamped with consecutive minutes from its start |
| MarketDataInitialization.AddToBatch | src/main/java/com/matching/service/MarketDataInitializationService.java:168-174 | appending a bar keeps "flushed batches hold exactly 1000 and the open batch fewer" and keeps all rows, in order |
| MarketDataInitialization.FinishBatch | src/main/java/com/matching/service/MarketDataInitializationService.java:177-179 | the final insert adds the open batch only when non-empty; every batch holds 1 to 1000 rows |
| MarketDataInitialization.GenerateAndInsertData | src/main/java/com/matching/service/MarketDataInitializationService.java:161-180 | the inserted batches concatenate to exactly the generated walk over [start, end), in order, each of at most 1000 rows and all but the last of exactly 1000 |
| MarketDataInitialization.AlignedStartFacts | src/main/java/com/matching/service/MarketDataInitializationService.java:97-98 | for a whole-minute start the aligned start is a multiple of the window; after the epoch it is the window boundary at or before the start |
| MarketDataInitialization.UnalignedStartExample | src/main/java/com/matching/service/MarketDataInitializationService.java:97-98 | a start with seconds loses them twice: 5m30s aligns to 4m30s, not a window boundary |
| MarketDataInitialization.WindowBars | src/main/java/com/matching/service/MarketDataInitializationService.java:101-146 | at most one aggregated bar per window |
| MarketDataInitialization.WindowBarsStamps | src/main/java/com/matching/service/MarketDataInitializationService.java:123-138 | each aggregated bar carries the symbol and time frame and is stamped with the start of one of the windows, in strictly increasing order |
| MarketDataInitialization.WindowBarsWellFormed | src/main/java/com/matching/service/MarketDataInitializationService.java:127-143 | aggregated bars are well formed when the 1m bars are |
| MarketDataInitialization.AggregateWindow | src/main/java/com/matching/service/MarketDataInitializationService.java:102-152 | one pass of the window loop appends the window's reduced bar, if it has 1m bars, while keeping the batch discipline |
| MarketDataInitialization.AggregateWindows | src/main/java/com/matching/service/MarketDataInitializationService.java:101-158 | the inserted batches concatenate to the windows' bars from the first window up to the end, each batch of 1 to 1000 rows |
| MarketDataInitialization.AggregateData | src/main/java/com/matching/service/MarketDataInitializationService.java:76-159 | the inserted 5m/1h bars are the reduced bars of the windows from the aligned start up to the adjusted end (moved `minutes` before the current minute away from a 5-minute or hour boundary), in batches of 1 to 1000 rows |
| MarketDataInitialization.AggregatedWindowsAreComplete | src/main/java/com/matching/service/MarketDataInitializationService.java:80-101 | from a whole-minute start, every aggregated 5m (1h) window has ended by the current minute, on or off a window boundary: a window still in progress is never aggregated |
| MarketDataInitialization.SliceBarsCoverMinutes | src/main/java/com/matching/service/MarketDataInitializationService.java:54-65 | the bars of the first `n` slices, in slice order, are stamped with consecutive minutes from the start, one per minute those slices cover |
| MarketDataInitialization.GenerateSlices | src/main/java/com/matching/service/MarketDataInitializationService.java:57-67 | the slice tasks' batches concatenate to the slices' bars in slice order, each batch of 1 to 1000 rows |
| MarketDataInitialization.InitializeSymbolMarketData | src/main/java/com/matching/service/MarketDataInitializationService.java:40-74 | nothing happens when the start is after the end. Otherwise there are 32 slices, the inserted 1m bars are the slices' bars in order, stamped once per minute of [start, end), and every insert batch holds 1 to 1000 rows. Slice `i` starts at the stored close before it, slice 0 at the close at the last data time or the 50000/4000 default. The 5m and 1h batches are those `AggregateData` inserts with the current minute as both end and clock |

## Left out

- Redis, Kafka, JDBC/JPA and Jackson plumbing. Book keys are strings and members are `OrderRecord` values, not bytes or JSON text. Sends are returned `Event`s or messages. Tables are fields of a store. Queries are function parameters.
- OrderBook.OrderBookStore.GetBestOpponentOrder: among several members with the same extreme score it may return any of them. Redis breaks such ties by the member's bytes, and the model does not capture that.
- OrderBook.Score: the score is the exact `price·10⁷ ∓ modifiedAt`. The conversion to `double` in `calculateScore` and its rounding are not modelled.
- Matching.HandleNewOrder: a non-MARKET order with no price and quantity left makes the source dereference the null price and throw. It throws at the price check if an opponent exists, and otherwise in `calculateScore` before the book write. The model returns `ok == false` with nothing changed; the exception itself is not modelled.
- Matching.MatchStep: the clock is one reading `now` per call. The source reads `Instant.now()` separately for each status update, each trade's time and the candle seed.
- Matching.MatchStep: trade ids are the naturals `firstTradeId + k`. The Snowflake generator, and the ids' string form, are not part of this model.
- Matching.FillEvents: book deltas carry the price and the signed quantity as numbers. The `BigDecimal.toString` rendering handed to `sendDelta` is not modelled; `OrderBookDeltaProducer` is modelled on strings separately. The kline message is modelled as its three fields rather than as JSON.
- Matching: `JsonProcessingException`s from the encoder are not modelled, since the encoding is a total function here.
- MatchedOrderConsumer.MergeOrders: it is modelled on snapshot values. The source mutates the first message's `Order` object in place, and that object is discarded after the flush.
- MatchedOrderConsumer.FirstSeenIds: the iteration order of `HashMap.values()` is modelled as first-seen order. Upserts of distinct ids commute (`TradeRepository.UpsertCommutes`), so the table contents do not depend on it.
- MatchedOrderConsumer.Consumer.ConsumeTradeOrdersMessage: exceptions from the repository are swallowed in the source. The model returns the failure and empties the batch all the same, so a failed batch is lost, as in the source.
- Concurrency:
  - The `synchronized` blocks, the volatile flag and the listener threads are not modelled: every call runs alone.
  - The 32 back-fill threads run one after the other. Each slice takes its random draws from its own stream; the interleaving of one shared `Random` between threads is not modelled.
  - Running the slices in turn does not make the walk continuous across slices. Slice `i`'s start price is the query `closeAt(sliceStart − 60)`, a free parameter that is not tied to the bars earlier slices generate. In the source that query runs right after slice `i − 1`'s task is submitted, before that task has inserted its last bar, so it usually falls back to the 50000/4000 default.
- MarketDataInitialization.GenerateMarketData: `java.util.Random` is replaced by a draw oracle `draw(slice, minute)`. The `BigDecimal.valueOf(double)` conversions are exact here.
- MarketDataInitialization.InitializeSymbolMarketData: the 5m/1h aggregation reads stored 1m bars through the parameter `barsIn`. The model does not tie that parameter to the bars generated just before. The separate clock reading inside `aggregateData` is the same `nowSeconds`.
- MarketDataService.AggregateAndSaveMarketData: the trade, previous-bar and 1m-bar queries are parameters. The model does not tie the 5m/1h query to the 1m bar saved just before it in the same run. The second `Instant.now()` inside `aggregateAndSaveAggregatedData` is taken to read the same minute.
- `initializeMarketData` (two calls, for BTCUSDT and ETHUSDT), `getLastDataTime` (a parameter), `batchInsert` (a returned batch) and the console output are not modelled separately.
- OrderBookDeltaProducer.LowerChar: Java's `toLowerCase()` folds case by the default locale over all of Unicode (for example 'É' to 'é', or 'I' to a dotless 'ı' under a Turkish locale, and 'İ' to two characters). The model folds only ASCII A–Z, so `Topic`'s length claim holds only for the model. The engine's symbols are ASCII upper-case.
- OrderLoggerService (spreadsheet I/O), the schedulers' timing, the Kafka/Redis configuration classes and the DTO holder classes are not part of this model.
