# FTSO price provider core, modelled in Dafny

This project models the deterministic core of a price-oracle value provider
for the Flare Time Series Oracle (FTSO). The provider collects exchange
trades and tickers, keeps the latest price per (symbol, exchange), turns
them into one feed value per request, and falls back to stored or on-chain
values when no live price is available.

The model covers:

- the per-second volume ring buffer `VolumeStore`;
- the aggregation kernels: median, MAD, weighted median, decay weighting,
  capping, normalisation, VWAP, and USD/USDT trade merging;
- the price bookkeeping of `CcxtFeed`, `CustomWsFeed` and `WsFeed`, with
  their fallback rules;
- the bounded `retry` loop;
- the strategy dispatcher and every price strategy;
- the experimental adjustment helpers `priceStrategie01` and
  `priceStrategie03`;
- the Test1, Test2 and Test5 ccxt feeds, `FixedFeed` and `RandomFeed`.

Modelling conventions:

- Prices are `real` and timestamps are `int` milliseconds. Floating-point
  rounding is not modelled.
- The current time, `Math.random()` draws, `Math.exp`, `Math.sqrt` and
  `toFixed(8)` are parameters.
- A JavaScript `Map` is a sequence of key/value pairs in insertion order
  (`Common.OMap`). `Put` replaces a key in place or appends it, as `Map.set`
  does, so iteration order stays observable.
- `Num` is `Real(r) | NaN`. It stands for a JavaScript number where the
  source can produce `NaN` or `undefined`.
- Database rows, on-chain prices and the results of strategies called
  through I/O are plain inputs.

Modules follow the source files:

| module | source file |
|---|---|
| `Common`, `Sorting`, `Market` | shared helpers, `Array.prototype.sort`, src/types/market-data-types.ts |
| `Volumes` | src/data-feeds/volumes.ts |
| `Statistics`, `Weighting`, `Vwap`, `Data` | src/helpers/*.ts |
| `CcxtState`, `CcxtPrice` | src/data-feeds/ccxt-provider-service.ts |
| `Fallback` | the 5-minute fallback rule shared by the three feeds |
| `Retry` | src/utils/retry.ts |
| `CustomWsFeed`, `WsFeed` | src/data-feeds/custom-ws-feed.ts, src/data-feeds/ws-feed.ts |
| `StrategyBase`, `WeightedStrategies`, `OrderStrategies`, `HistoryStrategies`, `Dispatch` | src/price-strategies/*.ts |
| `Strategie01`, `Strategie03` | src/utils/price-strategie01.ts, src/utils/price-strategie03.ts |
| `Test1Feed`, `Test2Feed`, `Test5Feed`, `FixedFeed`, `RandomFeed` | the feeds of the same names |

## Model

| member | source | states |
|---|---|---|
| Volumes.Empty | src/data-feeds/volumes.ts:6-9 | a fresh store has 3600 zero slots and no last timestamp |
| Volumes.Slot | src/data-feeds/volumes.ts:33-37 | every timestamp maps to a slot below 3600 |
| Volumes.ZeroFilled | src/data-feeds/volumes.ts:33-35 | zero-filling keeps exactly 3600 slots |
| Volumes.ZeroFilledAt | src/data-feeds/volumes.ts:33-35 | a slot after zero-filling is 0 when its second lies in the gap and unchanged otherwise |
| Volumes.ProcessTrade | src/data-feeds/volumes.ts:17-39 | a trade with no or zero timestamp, or older than the last one, leaves the store unchanged; otherwise the store stays valid and the last timestamp becomes the trade's |
| Volumes.ProcessAll | src/data-feeds/volumes.ts:16-42 | processing a batch keeps the store valid |
| Volumes.ProcessTradeSlots | src/data-feeds/volumes.ts:30-38 | an accepted trade changes only the gap slots and its own slot; its own slot gains amount × price on top of the zero-filled value |
| Volumes.ProcessTradeOwnSlot | src/data-feeds/volumes.ts:33-38 | a trade in the same second as the last adds amount × price to that slot without clearing it |
| Volumes.FirstTradeNoFill | src/data-feeds/volumes.ts:31-38 | the first trade ever zero-fills nothing and only adds to its own slot |
| Volumes.LastTsMonotone | src/data-feeds/volumes.ts:23-39 | the last processed timestamp never decreases |
| Volumes.SlotsNonNegative | src/data-feeds/volumes.ts:34-38 | with non-negative amounts and prices every slot stays non-negative |
| Volumes.SingleTradeVolume | src/data-feeds/volumes.spec.ts:31-38 | one trade of 0.05 at 50000 leaves 2500 in its slot |
| Volumes.ProcessTrades | src/data-feeds/volumes.ts:16-42 | the loop over the batch computes the same store as the trade-by-trade model |
| Volumes.GetVolume | src/data-feeds/volumes.ts:44-61 | fails exactly for a window over 3600; a store that has seen no trade gives 0 |
| Volumes.WindowSumIsSum | src/data-feeds/volumes.ts:55-58 | the window sum adds the slots of the seconds from now − w up to, not including, the last trade's second |
| Volumes.WindowSumNonNegative | src/data-feeds/volumes.ts:55-58 | the window sum of non-negative slots is non-negative |
| Volumes.GetVolumeNonNegative | src/data-feeds/volumes.ts:44-61 | a successful query on non-negative slots is non-negative |
| Volumes.LastSecondExcluded | src/data-feeds/volumes.ts:52-58 | after a single trade, a query at that trade's own time with a window below 3600 gives 0 |
| Volumes.FullWindowSeesLastSecond | src/data-feeds/volumes.ts:52-58 | a 3600-second window wraps around and counts the slot of the last trade's second |
| Volumes.GetVolumeLoop | src/data-feeds/volumes.ts:44-61 | the summing loop returns exactly the functional result |
| Sorting.SortBy | src/helpers/statistics.ts:14 | the sorted copy is a permutation of the input, ordered by the key |
| Sorting.SortReals | src/helpers/statistics.ts:2 | the sorted copy of numbers is a permutation, ascending |
| Statistics.Median | src/helpers/statistics.ts:1-5 | NaN exactly for empty input; otherwise between the least and the greatest input |
| Statistics.MedianPermutation | src/helpers/statistics.ts:2 | the median depends only on the multiset of inputs |
| Statistics.MedianOddBalanced | src/helpers/statistics.ts:1-5 | for odd length at most half the inputs lie strictly below and strictly above the median, and it is an input |
| Statistics.MedianEvenBalanced | src/helpers/statistics.ts:1-5 | for even length the median is the mean of the lower and the upper middle inputs a ≤ b: at most n/2 − 1 inputs lie below a and at most n/2 above it, at most n/2 below b and at most n/2 − 1 above it |
| Statistics.AbsDeviations | src/helpers/statistics.ts:9 | entry i is the distance of input i from the centre, never negative |
| Statistics.Mad | src/helpers/statistics.ts:7-11 | the median absolute deviation is NaN only on empty input, otherwise non-negative |
| Statistics.MadPermutation | src/helpers/statistics.ts:7-11 | the MAD depends only on the multiset of inputs |
| Statistics.FirstReaching | src/helpers/statistics.ts:15-19 | the index found is the first whose cumulative weight reaches 0.5 |
| Statistics.FirstReachingFound | src/helpers/statistics.ts:15-19 | a non-empty list whose weights total at least the target has a first position reaching it |
| Statistics.MedianIndex | src/helpers/statistics.ts:14-20 | the chosen index is the first reaching 0.5, or the last when none does |
| Statistics.SortByPrice | src/helpers/statistics.ts:14 | weighted entries are sorted ascending by price as a permutation |
| Statistics.GetWeightedMedian | src/helpers/statistics.ts:13-21 | none exactly for empty input; otherwise one of the input prices |
| Statistics.WeightedMedianFallbackIsMax | src/helpers/statistics.ts:20 | when cumulative weight never reaches 0.5 the result is the largest price |
| Vwap.RecentVolume | src/helpers/vwap.ts:4 | at most one (price, amount) entry per trade |
| Vwap.RecentVolumeFrom | src/helpers/vwap.ts:4 | each entry is the price and amount of a trade younger than 300000 ms |
| Vwap.GetVWAP | src/helpers/vwap.ts:5-6 | the result is undefined exactly when the recent amounts sum to 0 |
| Vwap.VWAPBalance | src/helpers/vwap.ts:7-8 | a defined result times the recent amount equals the recent price × amount sum |
| Vwap.VWAPBounds | src/helpers/vwap.ts:5-8 | with non-negative amounts a defined result lies between the least and the greatest recent price |
| Vwap.StaleTradeIgnored | src/helpers/vwap.ts:4 | adding a trade 300000 ms old or older does not change the result |
| Vwap.VWAPOfOnePrice | src/helpers/vwap.ts:7-8 | when every recent trade has the same price the result is that price |
| Weighting.ApplyDecayWeighting | src/helpers/weighting.ts:3-13 | one entry per trade, in order, carrying the trade's price |
| Weighting.DecayWeightBounds | src/helpers/weighting.ts:8-11 | with decay in (0, 1] and non-negative amounts each weight lies between 0 and the amount |
| Weighting.StatsOf | src/helpers/weighting.ts:33-37 | one counter per exchange, the keys distinct |
| Weighting.ApplyDecayWithCapAndStats | src/helpers/weighting.ts:15-44 | every kept entry has positive weight and comes from an input trade; the statistics are keyed by distinct exchanges |
| Weighting.CappedKeepsPositive | src/helpers/weighting.ts:26-41 | a trade whose capped, decayed weight is positive is kept (that every kept entry has a positive weight is stated by `ApplyDecayWithCapAndStats`) |
| Weighting.CappedWeightAtMostCap | src/helpers/weighting.ts:28-32 | with decay at most 1 every kept weight is at most the cap |
| Weighting.StatsCountAll | src/helpers/weighting.ts:33-37 | the counters add up to the number of trades |
| Weighting.CapStatsCountAll | src/helpers/weighting.ts:24-38 | the counters of the combined function add up to the input length, zero-weight trades included |
| Weighting.NormalizeAndSort | src/helpers/weighting.ts:46-55 | zero total weight gives []; otherwise the same length, ascending prices, weights summing to 1 and the same multiset of prices |
| Weighting.PositiveWeightsNormalize | src/helpers/weighting.ts:46-55 | positive weights give a positive total, so normalising drops no entry |
| Weighting.NormalizedEntry | src/helpers/weighting.ts:49-54 | each output entry is an input entry with its weight divided by the total |
| Weighting.NormalizedWithin | src/helpers/weighting.ts:49-54 | normalising keeps weights non-negative and prices within the input's price range |
| Weighting.VarianceNonNegative | src/helpers/weighting.ts:62-65 | with non-negative weights the sum of weighted squared deviations is non-negative |
| Weighting.StdDevNonNegative | src/helpers/weighting.ts:57-67 | `computeWeightedAverageAndStdDev` with non-negative weights and a square root that is non-negative on non-negative inputs gives a non-negative deviation |
| Weighting.WeightedAverage | src/price-strategies/strategy-weighted-vwap.ts:61 | the weighted average is the price × weight sum over the weight sum |
| Weighting.WeightedAverageBounds | src/helpers/weighting.ts:57-67 | `computeWeightedAverageAndStdDev` with non-negative weights summing to 1 gives an average between the least and the greatest price |
| Data.Rate | src/helpers/data.ts:19 | the conversion rate is the given one or 1.0 |
| Data.AppendExchanges | src/helpers/data.ts:30-37 | an empty exchange map leaves the accumulator; a non-empty one always yields a list |
| Data.AppendExchangesContents | src/helpers/data.ts:30-37 | a trade is in the result exactly when it is the conversion of a kept trade of some exchange |
| Data.MergedTrades | src/helpers/data.ts:25-39 | without the trade flag nothing is read |
| Data.OverwriteTickersLast | src/helpers/data.ts:46-57 | the last ticker visited wins |
| Data.MergedTicker | src/helpers/data.ts:41-59 | without the ticker flag there is no ticker |
| Data.GetTradesAndTickers | src/helpers/data.ts:4-62 | the symbol is the lowercased name; a part whose flag is off is absent |
| Data.MergedTradesFresh | src/helpers/data.ts:32 | with an age limit every kept trade is younger than it |
| Data.SymbolTradesContents | src/helpers/data.ts:26-37 | a symbol contributes exactly the converted kept trades of its exchanges |
| Data.UsdtTradeConverted | src/helpers/data.ts:31-33 | a trade read from the USDT key has its price multiplied by the rate and keeps amount, time and exchange |
| Data.UsdTradeKept | src/helpers/data.ts:31-36 | a trade read from the USD key is kept unchanged |
| Data.MergedTradesFrom | src/helpers/data.ts:26-37 | every merged trade comes from the USD key unchanged or from the USDT key converted |
| Data.MergedTickerLastWins | src/helpers/data.ts:41-58 | the USDT ticker's entry when present, else the USD one, else none |
| Data.ScaleTickerKeeps | src/helpers/data.ts:49-55 | last is multiplied by the rate; time and exchange are kept |
| CcxtState.FeedsEqualIsEquality | src/data-feeds/ccxt-provider-service.ts:551-553 | two feed ids are equal exactly when category and name match |
| CcxtState.FindConfigIndex | src/data-feeds/ccxt-provider-service.ts:388 | the index found is the first entry equal to the feed, or none when no entry is |
| CcxtState.FindConfig | src/data-feeds/ccxt-provider-service.ts:388 | the entry found equals the feed; none only when no entry does |
| CcxtState.CheckConfig | src/data-feeds/ccxt-provider-service.ts:542-544 | a configuration is accepted exactly when it has a USDT/USD feed |
| CcxtState.AllSources | src/data-feeds/ccxt-provider-service.ts:166-172 | the sources of every configuration entry, in order |
| CcxtState.ExchangeSymbolsExact | src/data-feeds/ccxt-provider-service.ts:166-172 | an exchange tracks a symbol exactly when some source names both, each symbol once |
| CcxtState.SetPrice | src/data-feeds/ccxt-provider-service.ts:367-375 | the (symbol, exchange) record is replaced; every other record is unchanged |
| CcxtState.PurgeStale | src/data-feeds/ccxt-provider-service.ts:376-386 | purging never grows the map |
| CcxtState.PurgeStaleGet | src/data-feeds/ccxt-provider-service.ts:376-386 | a record survives exactly when its age is at most the ttl |
| CcxtState.PurgeStaleEntries | src/data-feeds/ccxt-provider-service.ts:376-386 | the surviving records of a symbol are its fresh ones, in order |
| CcxtState.PurgeStaleIdempotent | src/data-feeds/ccxt-provider-service.ts:376-386 | purging twice is purging once |
| CcxtState.ProcessVolume | src/data-feeds/ccxt-provider-service.ts:357-365 | only the (symbol, exchange) store changes, and it becomes the old store with the trades processed |
| CcxtState.NewTrades | src/data-feeds/ccxt-provider-service.ts:303-304 | the kept trades are exactly those strictly newer than since, sorted by time |
| CcxtState.BatchStepUnchanged | src/data-feeds/ccxt-provider-service.ts:306-309 | a batch with no newer trade changes nothing |
| CcxtState.BatchStepAccepted | src/data-feeds/ccxt-provider-service.ts:311-315 | otherwise the newest trade sets the price and since of its symbol |
| CcxtState.SinceAdvancesForOneSymbol | src/data-feeds/ccxt-provider-service.ts:303-313 | for a single-symbol batch since never decreases |
| CcxtState.SinceCanGoBackInMixedBatch | src/data-feeds/ccxt-provider-service.ts:303-313 | when the first trade passes the filter and the second is no older, the second symbol's since becomes the second trade's time whatever it was, so it can go back |
| CcxtState.SymbolStep | src/data-feeds/ccxt-provider-service.ts:336-340 | an empty batch changes nothing |
| CcxtState.SymbolStepSince | src/data-feeds/ccxt-provider-service.ts:342-346 | the next since lies past every trade of the batch |
| CcxtState.SymbolStepUpdates | src/data-feeds/ccxt-provider-service.ts:342-348 | a non-empty batch is handled through a newest trade of the batch: its price and time (or now) become the (symbol, exchange) price, the (symbol, exchange) store processes the batch sorted by time, since becomes one past its time, and every other symbol and exchange keeps its price and store |
| CcxtPrice.ByTime | src/data-feeds/ccxt-provider-service.ts:468 | prices are sorted by time as a permutation |
| CcxtPrice.TimeWeighted | src/data-feeds/ccxt-provider-service.ts:474-495 | one weighted entry per price |
| CcxtPrice.CcxtWeightedMedian | src/data-feeds/ccxt-provider-service.ts:463-517 | empty input is an error |
| CcxtPrice.PriceValues | src/data-feeds/ccxt-provider-service.ts:490-491 | the values of the prices, in order |
| CcxtPrice.CcxtMedianIsInput | src/data-feeds/ccxt-provider-service.ts:463-517 | a non-empty input gives a defined result that is one of the input values |
| CcxtPrice.ByTimeOldest | src/data-feeds/ccxt-provider-service.ts:468 | the first price after sorting is the oldest |
| CcxtPrice.CcxtMedianAllStale | src/data-feeds/ccxt-provider-service.ts:482-485 | zero total weight gives the oldest price |
| CcxtPrice.CcxtMedianReachesHalf | src/data-feeds/ccxt-provider-service.ts:505-513 | otherwise the result is the first price-sorted entry whose cumulative normalised weight reaches 0.5 |
| CcxtPrice.CollectPrices | src/data-feeds/ccxt-provider-service.ts:408-422 | every source with a price contributes it and every collected price comes from a source |
| CcxtPrice.CollectPricesAppend | src/data-feeds/ccxt-provider-service.ts:408-422 | prices are collected in source order: two lists of sources give the concatenation of their prices |
| CcxtPrice.SourcePriceWithoutRate | src/data-feeds/ccxt-provider-service.ts:411-416 | without a USDT rate a USDT source is skipped and another source gives its stored record |
| CcxtPrice.GetFeedPrice | src/data-feeds/ccxt-provider-service.ts:387-432 | no matching configuration gives none and no purge; otherwise the state is purged of stale prices |
| CcxtPrice.MedianOfCollected | src/data-feeds/ccxt-provider-service.ts:424-431 | a non-empty collection gives a value equal to some source's price |
| CcxtPrice.FeedPriceFromSource | src/data-feeds/ccxt-provider-service.ts:387-432 | a defined feed price has a configuration and equals the converted price of one of its sources |
| CcxtPrice.FeedPriceDefinedIffSource | src/data-feeds/ccxt-provider-service.ts:408-428 | the feed price is defined exactly when some source has a fresh, convertible price |
| CcxtPrice.FeedPriceIgnoresStale | src/data-feeds/ccxt-provider-service.ts:394-395 | purging before the call does not change the price |
| CcxtPrice.GetValue | src/data-feeds/ccxt-provider-service.ts:98-125 | the requested feed; a live positive price is the value; an unconfigured feed leaves prices and fallbacks untouched, a configured one leaves the prices purged of entries older than 30 minutes |
| CcxtPrice.GetValuePositive | src/data-feeds/ccxt-provider-service.ts:98-125 | with positive fallbacks the value and the fallbacks stay positive |
| CcxtPrice.GetValueIgnoresStale | src/data-feeds/ccxt-provider-service.ts:98-125 | asking on the purged state gives the same value and fallbacks, and for a configured feed the same state |
| CcxtPrice.SafeFeedPrice | src/data-feeds/ccxt-provider-service.ts:98-117 | a positive live price is stored with now and returned; else a stored value younger than 5 minutes; else 1 |
| CcxtPrice.SafeFeedPricePositive | src/data-feeds/ccxt-provider-service.ts:98-117 | with positive stored values the result is positive and stored values stay positive |
| CcxtPrice.LoadFallbacks | src/data-feeds/ccxt-provider-service.ts:276-280 | exactly the keys with a positive value are loaded, every loaded value is positive, is one of the file's values for its key, and is timed now |
| CcxtPrice.WindowVolumes | src/data-feeds/ccxt-provider-service.ts:138-145 | a symbol's window volumes keep its exchanges, in order, and fail exactly when the window is over 3600 s and the symbol has a store |
| CcxtPrice.WindowVolumesGet | src/data-feeds/ccxt-provider-service.ts:140 | an exchange's window volume is its store's `getVolume(volumeWindow)`; an exchange without a store has none |
| CcxtPrice.WindowVolumesDistinct | src/data-feeds/ccxt-provider-service.ts:137-140 | exchanges distinct among the stores stay distinct among the volumes |
| CcxtPrice.SetBaseDistinct | src/data-feeds/ccxt-provider-service.ts:140 | the base pass keeps the map's keys distinct |
| CcxtPrice.SetBaseGet | src/data-feeds/ccxt-provider-service.ts:140 | after the base pass an exchange listed once with a base volume maps to exactly that volume, and every other key keeps its earlier value |
| CcxtPrice.UsdVolume | src/data-feeds/ccxt-provider-service.ts:130-133 | a missing or zero USDT rate converts a volume to 0 |
| CcxtPrice.AddUsdtDistinct | src/data-feeds/ccxt-provider-service.ts:142-148 | the USDT pass keeps the map's keys distinct |
| CcxtPrice.AddUsdtGet | src/data-feeds/ccxt-provider-service.ts:144-147 | after the USDT pass an exchange listed once with a USDT volume holds its earlier value (0 if it had none) plus the converted volume, and every other key keeps its earlier value |
| CcxtPrice.DistinctOnce | src/data-feeds/ccxt-provider-service.ts:136-148 | in a map with distinct keys every present key is listed exactly once |
| CcxtPrice.AddUsdtWithoutRate | src/data-feeds/ccxt-provider-service.ts:144-147 | without a rate the USDT pass adds nothing to any exchange |
| CcxtPrice.Totals | src/data-feeds/ccxt-provider-service.ts:136-148 | the totals fail exactly when the window is over 3600 s and the feed has a base or a USDT store |
| CcxtPrice.CombineGet | src/data-feeds/ccxt-provider-service.ts:140-147 | the base pass then the USDT pass give each exchange listed at most once in each window map its base volume (0 if none) plus its converted USDT volume, its base volume alone without a USDT volume, and nothing without either |
| CcxtPrice.TotalsGet | src/data-feeds/ccxt-provider-service.ts:136-148 | each exchange's total is its base window volume (0 if none) plus its converted USDT window volume, the base volume alone without a USDT store, absent without either store; each exchange appears once |
| CcxtPrice.FeedVolumes | src/data-feeds/ccxt-provider-service.ts:136-153 | the entry is for the requested feed and fails exactly when the window is over 3600 s and the feed has a base store or, for a "/USD" feed, a "/USDT" store |
| CcxtPrice.FeedVolumesGet | src/data-feeds/ccxt-provider-service.ts:136-153 | each exchange's reported volume is `Math.round` of its base window volume plus, for a "/USD" feed, its "/USDT" window volume times the USDT/USD rate (0 without a usable rate); an exchange with neither store is absent, and each exchange is reported once |
| CcxtPrice.GetVolumes | src/data-feeds/ccxt-provider-service.ts:135-155 | for a given USDT/USD rate: one entry per feed, in order, entry i being feed i's rounded totals (`FeedVolumes`); a failure comes from some feed, and no window up to 3600 s fails |
| CcxtPrice.GetVolumesRateUnused | src/data-feeds/ccxt-provider-service.ts:141-147 | without "/USDT" stores, or with a window over 3600 s, the report does not depend on the rate |
| CcxtPrice.RepeatedLookup | src/data-feeds/ccxt-provider-service.ts:130-131 | looking a price up again on the state the first lookup left gives the same price and state |
| CcxtPrice.GetVolumesOnState | src/data-feeds/ccxt-provider-service.ts:127-156 | on the provider state: the report is the one for the USDT/USD feed's own price on that state; the prices are purged exactly when the lookup happens (every window query succeeds and a "/USD" feed has "/USDT" stores) and the USDT/USD feed is configured, and untouched otherwise |
| CcxtPrice.GetVolumesOnStateGet | src/data-feeds/ccxt-provider-service.ts:127-156 | on the provider state, each exchange of feed i gets its rounded base window volume plus its "/USDT" window volume times the USDT/USD feed's price |
| CcxtPrice.GetVolumesRejectsLongWindow | src/data-feeds/ccxt-provider-service.ts:127-156 | a window over 3600 fails once a feed has a volume store |
| Fallback.StoredOr | src/data-feeds/custom-ws-feed.ts:118-125 | a stored value younger than 5 minutes, else the default |
| Fallback.SafePrice | src/data-feeds/custom-ws-feed.ts:108-126 | a positive price is stored under its key alone and returned; otherwise the fallback and no change |
| Fallback.StoredOrPositive | src/data-feeds/custom-ws-feed.ts:118-125 | with positive stored values and default the fallback is positive |
| Fallback.SafePricePositive | src/data-feeds/custom-ws-feed.ts:108-126 | with positive stored values the result and the stored values stay positive |
| Retry.RetryFrom | src/utils/retry.ts:27-46 | a success is the first success at or after the attempt; failure is the last attempt's error; one warning per failure, one sleep per failure except the last |
| Retry.RetryCall | src/utils/retry.ts:21-47 | with fewer than one retry nothing runs and the outcome is Unreachable; otherwise success or RetryError |
| Retry.RetryLoop | src/utils/retry.ts:27-46 | the loop computes the same trace as the recursive model |
| Retry.ContinueStep | src/utils/retry.ts:33-42 | a failed attempt that is not the last warns once, sleeps once and moves on |
| Retry.ContinueLast | src/utils/retry.ts:29-39 | a success or the last failure ends the loop |
| Retry.RandomisedBounds | src/utils/retry.ts:40 | a sleep lies in [backoff/2, backoff/2 + backoff) |
| Retry.BackoffDoubles | src/utils/retry.ts:42 | the backoff starts at the initial value and doubles after each failure |
| Retry.SuccessIsFirst | src/utils/retry.ts:29-32 | the first successful attempt ends the loop with its value after that many runs |
| Retry.AllFail | src/utils/retry.ts:36-39 | when every attempt fails the action runs maxRetries times, warns maxRetries times, sleeps one time fewer and raises RetryError |
| Retry.ThirdAttemptSucceeds | src/utils/retry.spec.ts:20-31 | two failures then success run the action exactly three times |
| CustomWsFeed.OnMessage | src/data-feeds/custom-ws-feed.ts:33-46 | only trade messages with a symbol and a numeric, non-zero price are stored, under the lowercased symbol and the source, replacing only that record |
| CustomWsFeed.UpperMedian | src/data-feeds/custom-ws-feed.ts:63-65 | none exactly for no values |
| CustomWsFeed.UpperMedianRank | src/data-feeds/custom-ws-feed.ts:63-65 | the result is an input with at most n/2 inputs below and n − 1 − n/2 above |
| CustomWsFeed.UpperMedianPermutation | src/data-feeds/custom-ws-feed.ts:63-65 | the result depends only on the multiset of values |
| CustomWsFeed.UpperMedianMonotone | src/data-feeds/custom-ws-feed.ts:99-101 | mapping by a monotone function maps the upper median |
| CustomWsFeed.InfoValues | src/data-feeds/custom-ws-feed.ts:63 | the values of the records, in order |
| CustomWsFeed.UsdtToUsd | src/data-feeds/custom-ws-feed.ts:59-66 | no "usdt/usd" map gives none; a rate is one of its values |
| CustomWsFeed.GetFeedPrice | src/data-feeds/custom-ws-feed.ts:80-106 | the state is purged with ttl 1800000; direct prices give their upper median; no direct price and no "/usd" suffix gives none |
| CustomWsFeed.DirectPriceIsRecorded | src/data-feeds/custom-ws-feed.ts:85-90 | a direct price is a recorded value of the name with balanced ranks |
| CustomWsFeed.FallbackIsScaledMedian | src/data-feeds/custom-ws-feed.ts:93-102 | the USDT fallback is the upper median of the USDT prices times the rate |
| CustomWsFeed.NoRateNoFallback | src/data-feeds/custom-ws-feed.ts:96-98 | without a rate there is no USDT fallback |
| CustomWsFeed.FeedPriceIgnoresStale | src/data-feeds/custom-ws-feed.ts:82 | purging before the call does not change the price |
| CustomWsFeed.SafeFeedPrice | src/data-feeds/custom-ws-feed.ts:108-126 | a positive price is stored and returned; else a stored value younger than 5 minutes; else 0.01 |
| CustomWsFeed.GetValue | src/data-feeds/custom-ws-feed.ts:128-131 | the value is for the requested feed and positive when stored values are |
| CustomWsFeed.GetValues | src/data-feeds/custom-ws-feed.ts:133-135 | one value per feed, in order |
| CustomWsFeed.GetVolumes | src/data-feeds/custom-ws-feed.ts:137-140 | always [] |
| WsFeed.NormalizeWithoutUsdt | src/data-feeds/ws-feed.ts:38-40 | a symbol without "/usdt" is only lowercased |
| WsFeed.NormalizeUsdt | src/data-feeds/ws-feed.ts:38-40 | the first "/usdt" of the lowercased symbol becomes "/usd" |
| WsFeed.UsdtSharesKey | src/data-feeds/ws-feed.ts:288-289 | a USDT pair and its USD pair share one fallback key |
| WsFeed.AddSeen | src/data-feeds/ws-feed.ts:97 | adding to a seen list keeps it duplicate-free and in first-seen order |
| WsFeed.BaseSymbols | src/data-feeds/ws-feed.ts:91-100 | each distinct trimmed, uppercased prefix of a name with "/", once |
| WsFeed.TradeOf | src/data-feeds/ws-feed.ts:169-175 | the trade keeps price, amount and exchange; a missing timestamp becomes now |
| WsFeed.LastN | src/data-feeds/ws-feed.ts:181 | the last n elements |
| WsFeed.Window | src/data-feeds/ws-feed.ts:179-181 | at most 1000 trades, all younger than 5 minutes, from the list or the new trade, which is last when young |
| WsFeed.WindowFacts | src/data-feeds/ws-feed.ts:181 | the window's trades are young and come from the list or the new trade |
| WsFeed.WindowDropsOldest | src/data-feeds/ws-feed.ts:181 | a full window of young trades drops its oldest for a young new one |
| WsFeed.OnTradeMessage | src/data-feeds/ws-feed.ts:164-183 | only messages with a price and an amount change the state, and only the (symbol, exchange) list |
| WsFeed.OnTradeKeepsWellFormed | src/data-feeds/ws-feed.ts:177-182 | the trade map keeps distinct keys |
| WsFeed.AcceptedTradeIsLast | src/data-feeds/ws-feed.ts:180-182 | a young accepted trade ends its list, which is young and at most 1000 long |
| WsFeed.UntimedTradeKept | src/data-feeds/ws-feed.ts:172 | a trade with no timestamp is stamped now and kept |
| WsFeed.CleanupTradeMap | src/data-feeds/ws-feed.ts:413-429 | no list or symbol is left empty and every trade left is younger than the age limit |
| WsFeed.CleanupTradeMapGet | src/data-feeds/ws-feed.ts:413-429 | a list becomes its young trades, and disappears when none is young |
| WsFeed.CleanupKeepsWellFormed | src/data-feeds/ws-feed.ts:413-429 | cleanup keeps distinct keys |
| WsFeed.CleanupGeneric | src/data-feeds/ws-feed.ts:431-443 | no symbol is left empty and every entry left has age at most the limit |
| WsFeed.CleanupGenericGet | src/data-feeds/ws-feed.ts:431-443 | an entry survives exactly when its age is at most the limit |
| WsFeed.CleanupBoundary | src/data-feeds/ws-feed.ts:418-435 | at age exactly maxAge a trade is removed but a ticker is kept |
| WsFeed.Accepted | src/data-feeds/ws-feed.ts:304-317 | a result counts only with value, ccxt and onchain present and a positive value |
| WsFeed.SafeFeedPrice | src/data-feeds/ws-feed.ts:286-337 | an accepted value is stored under the normalised key and returned; otherwise the fallback and no change |
| WsFeed.MissingFieldFallsBack | src/data-feeds/ws-feed.ts:304-312 | a result without a ccxt field is not stored |
| WsFeed.OnchainPrice | src/data-feeds/ws-feed.ts:292-293 | a missing or zero on-chain value gives 0; otherwise the value over 10 to the decimals |
| WsFeed.OnchainOr | src/data-feeds/ws-feed.ts:256-257 | the on-chain value of the uppercased name, or 0.01 |
| WsFeed.GetValues | src/data-feeds/ws-feed.ts:248-263 | one entry per feed, in order; a failed feed gets its on-chain value or 0.01 |
| WsFeed.GetVolumes | src/data-feeds/ws-feed.ts:266-284 | one entry per symbol with category 0 and, per exchange, the sum of its trade amounts |
| WsFeed.VolumesNonNegative | src/data-feeds/ws-feed.ts:272-274 | non-negative amounts give non-negative volumes |
| StrategyBase.OnchainFirst | src/price-strategies/strategy-default.ts:18 | the fallback is onchain if non-zero, else the last FTSO price if non-zero, else 0.01 |
| StrategyBase.FtsoFirst | src/price-strategies/strategy-low-trades.ts:21 | the same chain with the last FTSO price first |
| StrategyBase.FallbackChains | src/price-strategies/strategy-low-trades.ts:21 | both chains are positive for non-negative inputs and differ only when both inputs are non-zero |
| StrategyBase.UsdtRate | src/price-strategies/strategy-default.ts:20-25 | the last USDT FTSO price if non-zero, else 1.0 |
| StrategyBase.TradeListFresh | src/price-strategies/strategy-default.ts:20-25 | every trade used is younger than the strategy's age limit |
| StrategyBase.FallbackResult | src/price-strategies/strategy-default.ts:27-37 | value and ccxt are the fallback and onchain is the input |
| WeightedStrategies.CappedWeights | src/price-strategies/strategy-default.ts:40-45 | the capped weights are positive, come from trades and are empty exactly when no trade has positive weight |
| WeightedStrategies.FirstCappedCounts | src/helpers/weighting.ts:26-41 | the capped list is non-empty exactly when some trade counts |
| WeightedStrategies.CappedTotalZero | src/price-strategies/strategy-default.ts:48 | the total capped weight is 0 exactly when no trade is kept |
| WeightedStrategies.DefaultMedian | src/price-strategies/strategy-default.ts:82-85 | the weighted median is undefined exactly when no trade counts, and otherwise it is the price of a counted trade |
| WeightedStrategies.DefaultMedianFromTrades | src/price-strategies/strategy-default.ts:82-85 | the median of the normalised weights, when defined, is a counted trade's price |
| WeightedStrategies.DefaultMeta | src/price-strategies/strategy-default.ts:89-100 | the meta list has five entries with count, fallback and a non-negative deviation from the fallback |
| WeightedStrategies.DefaultPrice | src/price-strategies/strategy-default.ts:27-103 | no trades and zero weight give the fallback with their names; otherwise value = ccxt = a counted trade's price, so the "Default-Median-Error" branch is never taken |
| WeightedStrategies.StrategyDefault | src/price-strategies/strategy-default.ts:18-101 | onchain is kept; a fallback branch gives onchain ∥ lastFtso ∥ 0.01; otherwise the value is a young trade's price within the trade range |
| WeightedStrategies.DefaultWithinTrades | src/price-strategies/strategy-default.ts:82-94 | a Default result lies between the least and the greatest trade price |
| WeightedStrategies.WeightedVwapPrice | src/price-strategies/strategy-weighted-vwap.ts:24-81 | no trades or zero weight give the fallback; otherwise value = ccxt = Σ price·weight / Σ weight |
| WeightedStrategies.WeightedVwapWithinTrades | src/price-strategies/strategy-weighted-vwap.ts:47-61 | the non-fallback value lies between the least and the greatest trade price |
| WeightedStrategies.StrategyWeightedVwap | src/price-strategies/strategy-weighted-vwap.ts:15-81 | fallback onchain ∥ lastFtso ∥ 0.01 when no trade counts; otherwise a value within the trade range |
| WeightedStrategies.DecayedStats | src/price-strategies/strategy-low-trades.ts:43-66 | no statistics exactly when the decayed weights sum to 0 |
| WeightedStrategies.DecayedStatsBounds | src/price-strategies/strategy-low-trades.ts:68-72 | the average lies within the trade range and the deviation is non-negative |
| WeightedStrategies.LowTradesPrice | src/price-strategies/strategy-low-trades.ts:30-81 | no trades or no weight give the fallback with their names; otherwise value = avg − 0.25·stdDev, ccxt = avg, meta = [stdDev, count] |
| WeightedStrategies.VolatilityPrice | src/price-strategies/strategy-volatility.ts:30-77 | no trades or no weight give the fallback; otherwise value = avg − 0.25·stdDev, ccxt = avg, meta = [avg, stdDev, value] |
| WeightedStrategies.LowTradesBelowMean | src/price-strategies/strategy-low-trades.ts:68-81 | value ≤ ccxt and ccxt lies within the trade range |
| WeightedStrategies.StrategyLowTrades | src/price-strategies/strategy-low-trades.ts:21-81 | fallback lastFtso ∥ onchain ∥ 0.01 |
| WeightedStrategies.StrategyVolatility | src/price-strategies/strategy-volatility.ts:19-77 | fallback onchain ∥ lastFtso ∥ 0.01 |
| WeightedStrategies.LowTradesMatchesVolatility | src/price-strategies/strategy-volatility.ts:19-76 | the two strategies take the same branch and value, and differ only in the fallback order |
| OrderStrategies.GroupByExchange | src/price-strategies/strategy-top3-exchange-median.ts:36-42 | groups have distinct exchanges and non-empty lists of that exchange's trades |
| OrderStrategies.GroupGet | src/price-strategies/strategy-top3-exchange-median.ts:36-42 | an exchange's group is its trades in input order |
| OrderStrategies.GroupPartition | src/price-strategies/strategy-top3-exchange-median.ts:36-42 | the groups together hold exactly the input trades |
| OrderStrategies.Entries | src/price-strategies/strategy-top3-exchange-median.ts:43-46 | each group gets its Σ amount·price volume |
| OrderStrategies.TopExchanges | src/price-strategies/strategy-top3-exchange-median.ts:47-49 | at most 3 exchanges, by descending volume, none left out with a larger volume |
| OrderStrategies.Top3Prices | src/price-strategies/strategy-top3-exchange-median.ts:51 | one price per trade of the kept exchanges |
| OrderStrategies.Top3TradesFromInput | src/price-strategies/strategy-top3-exchange-median.ts:51 | the kept trades come from the input and are non-empty when it is |
| OrderStrategies.MeanVolume | src/price-strategies/strategy-top3-exchange-median.ts:53 | NaN exactly for no kept exchange |
| OrderStrategies.Top3Price | src/price-strategies/strategy-top3-exchange-median.ts:24-72 | no trades give the fallback; otherwise value = ccxt = the median of the kept prices, with meta |
| OrderStrategies.Top3WithinTrades | src/price-strategies/strategy-top3-exchange-median.ts:51-71 | prices used ≤ total trades, and the value lies within the trade range |
| OrderStrategies.StrategyTop3 | src/price-strategies/strategy-top3-exchange-median.ts:15-72 | fallback lastFtso ∥ onchain ∥ 0.01; otherwise a value within the trade range |
| OrderStrategies.TrimCount | src/price-strategies/strategy-trimmed-mean.ts:38 | floor(0.1·n) is n div 10 |
| OrderStrategies.TrimmedPrices | src/price-strategies/strategy-trimmed-mean.ts:37-39 | n − 2·cut sorted trade prices, non-empty for n ≥ 1 |
| OrderStrategies.TrimmedKeepsMiddle | src/price-strategies/strategy-trimmed-mean.ts:37-39 | every trimmed-off low price is ≤ every kept one and every trimmed-off high price ≥ it |
| OrderStrategies.TrimmedMeanPrice | src/price-strategies/strategy-trimmed-mean.ts:23-54 | no trades give the fallback; otherwise value = ccxt = the mean of the trimmed prices, meta = [cut, kept, n] |
| OrderStrategies.TrimmedMeanBounds | src/price-strategies/strategy-trimmed-mean.ts:40-53 | the trimmed mean lies within the trade range |
| OrderStrategies.TrimmedMeanPermutation | src/price-strategies/strategy-trimmed-mean.ts:37-40 | the result does not depend on trade order |
| OrderStrategies.StrategyTrimmedMean | src/price-strategies/strategy-trimmed-mean.ts:14-57 | fallback onchain ∥ lastFtso ∥ 0.01; otherwise a value within the trade range |
| OrderStrategies.RollingMadPrice | src/price-strategies/strategy-rolling-mad-filter.ts:23-64 | no trades give the fallback; onchain when within 3·MAD of the median, else the median; ccxt = median, meta = [MAD, count] |
| OrderStrategies.RollingMadWithinBand | src/price-strategies/strategy-rolling-mad-filter.ts:50-56 | the value is onchain or the median and within 3·MAD of the median |
| OrderStrategies.RollingMadPermutation | src/price-strategies/strategy-rolling-mad-filter.ts:35-64 | the result does not depend on trade order |
| OrderStrategies.StrategyRollingMad | src/price-strategies/strategy-rolling-mad-filter.ts:13-64 | fallback onchain ∥ lastFtso ∥ 0.01; otherwise onchain or the median |
| HistoryStrategies.LastEpochPrice | src/price-strategies/strategy-last-epoch-price.ts:11-27 | value = ccxt = lastFtso ∥ onchain ∥ 0.01, meta = [0, lastFtso ?? 0], name LastEpochPrice |
| HistoryStrategies.LastEpochIsFtsoFirst | src/price-strategies/strategy-last-epoch-price.ts:11-12 | the value is the FTSO-first chain, positive for non-negative inputs |
| HistoryStrategies.ComboBetween | src/price-strategies/strategy-bj-sgb.ts:42-47 | every combination lies between the average and onchain |
| HistoryStrategies.BjSgbIsCombo4 | src/price-strategies/strategy-bj-sgb.ts:42-47 | the adjusted value is the 4-onchain combination, 0 only when both inputs are |
| HistoryStrategies.BjSgbBetween | src/price-strategies/strategy-bj-sgb.ts:42-47 | the adjusted value lies between the average and onchain |
| HistoryStrategies.BjSgbPrice | src/price-strategies/strategy-bj-sgb.ts:25-85 | no trades give the fallback; otherwise value = (2·avg + 4·onchain)/6, ccxt = avg, with meta |
| HistoryStrategies.BjSgbWithinInputs | src/price-strategies/strategy-bj-sgb.ts:38-47 | avg lies within the trade range and the value between avg and onchain |
| HistoryStrategies.StrategyBjSgb | src/price-strategies/strategy-bj-sgb.ts:16-87 | fallback onchain ∥ lastFtso ∥ 0.01 |
| HistoryStrategies.MomentumBias | src/price-strategies/strategy-trend-momentum.ts:33 | 1.001 exactly for a rise, 0.999 exactly for a fall, 1 exactly for none |
| HistoryStrategies.TrendMomentumPrice | src/price-strategies/strategy-trend-momentum.ts:14-52 | fewer than 5 rows give the fallback; otherwise value = ccxt = onchain × bias of newest − 5th newest |
| HistoryStrategies.TrendMomentumNudge | src/price-strategies/strategy-trend-momentum.ts:32-34 | the value moves from onchain by at most 0.1 %, in the direction of the trend |
| HistoryStrategies.StrategyTrendMomentum | src/price-strategies/strategy-trend-momentum.ts:14-55 | fallback onchain ∥ lastFtso ∥ 0.01 |
| HistoryStrategies.HistoryAverage | src/price-strategies/strategy-smart-blend.ts:40-41 | NaN exactly for no rows, otherwise the mean FTSO price |
| HistoryStrategies.Blend | src/price-strategies/strategy-smart-blend.ts:43 | defined exactly when VWAP, median and history average are |
| HistoryStrategies.BlendWithin | src/price-strategies/strategy-smart-blend.ts:43 | the blend of three values in a range lies in that range |
| HistoryStrategies.SmartBlendPrice | src/price-strategies/strategy-smart-blend.ts:23-60 | no trades give the fallback; otherwise value = 0.5·VWAP + 0.3·median + 0.2·history mean, ccxt = VWAP |
| HistoryStrategies.SmartBlendWithinTrades | src/price-strategies/strategy-smart-blend.ts:37-43 | with the history mean in the trade range the value is too |
| HistoryStrategies.StrategySmartBlend | src/price-strategies/strategy-smart-blend.ts:16-63 | fallback onchain ∥ lastFtso ∥ 0.01 |
| Dispatch.RouteOf | src/price-strategies/index.ts:32-98 | a stablecoin with history goes to LastEpochPrice; a listed name goes to its strategy; any other to Default |
| Dispatch.ReservedFeedRouted | src/price-strategies/index.ts:42-94 | each single-name list routes its name to exactly its strategy |
| Dispatch.StablecoinWithoutHistory | src/price-strategies/index.ts:38-40 | a stablecoin without a last FTSO price falls through to Default |
| Dispatch.LabelIdentifiesRoute | src/price-strategies/index.ts:32-98 | different routes have disjoint result names |
| Dispatch.ResultRevealsRoute | src/price-strategies/index.ts:32-98 | the result name identifies the route taken |
| Dispatch.LastFtso | src/price-strategies/index.ts:27-30 | the FTSO price of the newest row, none without rows |
| Dispatch.ApplyPriceStrategy | src/price-strategies/index.ts:17-99 | the result comes from the routed strategy, keeps onchain, and on LastEpoch is the FTSO-first chain |
| Strategie01.RecentRows | src/utils/price-strategie01.ts:24-25 | the newest 10 rows at most |
| Strategie01.RowWeights | src/utils/price-strategie01.ts:26-29 | row i gets its ccxt price and weight exp(−0.075·i) |
| Strategie01.Spread | src/utils/price-strategie01.ts:33 | the MAD, or 1e-9 when it is 0 or NaN, always positive |
| Strategie01.InlierByProduct | src/utils/price-strategie01.ts:34 | abs(p − med) / spread < 3 exactly when abs(p − med) < 3·spread |
| Strategie01.TrimOutliers | src/utils/price-strategie01.ts:31-35 | the kept rows come from the input and lie within 3 spreads of the median |
| Strategie01.TrimKeepsOne | src/utils/price-strategie01.ts:31-35 | a non-empty input keeps at least one row |
| Strategie01.WeightedMedian | src/utils/price-strategie01.ts:86-96 | NaN exactly for empty input; otherwise an input price at a half-weight point |
| Strategie01.WeightedMedianReachesHalf | src/utils/price-strategie01.ts:90-94 | the cumulative weight at the chosen index reaches half the total |
| Strategie01.HistoricalMedian | src/utils/price-strategie01.ts:24-37 | NaN exactly without history; otherwise one of the 10 newest ccxt prices |
| Strategie01.ExceedsThreshold | src/utils/price-strategie01.ts:44-45 | for adjusted ≠ 0 the blend triggers exactly when abs(adjusted − onchain) exceeds 15 bps of abs(adjusted) |
| Strategie01.CorrectedTowardsOnchain | src/utils/price-strategie01.ts:44-47 | the correction never moves away from onchain and shrinks the gap to 75 % when it triggers |
| Strategie01.JitterBound | src/utils/price-strategie01.ts:50-51 | abs(jitter) ≤ 0.5·0.05·1e-4·abs(adjusted) |
| Strategie01.AdjustNearOnchain | src/utils/price-strategie01.ts:41-51 | the result is no further from onchain than the 60/40 mix plus the jitter bound |
| Strategie01.PriceStrategie01 | src/utils/price-strategie01.ts:13-73 | NaN exactly without history; otherwise the mixed, corrected, jittered price |
| Strategie03.ExchangeValues | src/utils/price-strategie03.ts:41 | the values of the exchange records, in order |
| Strategie03.UsdtToUsdRate | src/utils/price-strategie03.ts:38-47 | defined exactly when "USDT/USD" has a record; then the mean, within the value range |
| Strategie03.SuffixesExclusive | src/utils/price-strategie03.ts:93-98 | a symbol never ends in both "/USDT" and "/USD" |
| Strategie03.SymbolPrices | src/utils/price-strategie03.ts:91-99 | "/USD" symbols give their values, "/USDT" symbols their values × a known rate, anything else nothing |
| Strategie03.UsdPriceSource | src/utils/price-strategie03.ts:89-101 | every collected price comes from some symbol of the base |
| Strategie03.OtherSymbolsIgnored | src/utils/price-strategie03.ts:91 | without a matching symbol nothing is collected |
| Strategie03.UsdPricesAppend | src/utils/price-strategie03.ts:89-101 | collection follows map order symbol by symbol |
| Strategie03.PriceStrategie03 | src/utils/price-strategie03.ts:132-162 | NaN exactly without USD prices; otherwise (avg + 4·onchain + avg)/6 |
| Strategie03.Strategie03Between | src/utils/price-strategie03.ts:150-153 | the average lies within the prices and the result between the average and onchain |
| Test1Feed.SourcePrice | src/data-feeds/test1-ccxt-feed.ts:67-73 | a source's price when it exists and is positive |
| Test1Feed.PositivePrices | src/data-feeds/test1-ccxt-feed.ts:66-75 | at most one positive price per source |
| Test1Feed.PositivePricesComplete | src/data-feeds/test1-ccxt-feed.ts:66-75 | when every source has a positive price they follow the sources one for one |
| Test1Feed.LatestExchangePrices | src/data-feeds/test1-ccxt-feed.ts:62-76 | [] without a configuration entry, otherwise the positive source prices |
| Test1Feed.Deltas | src/data-feeds/test1-ccxt-feed.ts:41 | step i is price i+1 − price i |
| Test1Feed.Telescoping | src/data-feeds/test1-ccxt-feed.ts:41-42 | the steps add up to last − first |
| Test1Feed.DetectTrend | src/data-feeds/test1-ccxt-feed.ts:78-87 | flat below 3 prices; up exactly when the mean step exceeds 0.0001, down exactly below −0.0001 |
| Test1Feed.TrendFromEndpoints | src/data-feeds/test1-ccxt-feed.ts:78-87 | the trend depends only on (last − first)/(n − 1) |
| Test1Feed.Recent | src/data-feeds/test1-ccxt-feed.ts:39 | the newest 20 prices at most |
| Test1Feed.Variance | src/data-feeds/test1-ccxt-feed.ts:43-46 | the population variance is non-negative |
| Test1Feed.Clamp | src/data-feeds/test1-ccxt-feed.ts:53 | the result lies in [lo, hi] and equals x when x does |
| Test1Feed.DynamicOffset | src/data-feeds/test1-ccxt-feed.ts:35-56 | within ±0.001; 0 below 5 prices or with no spread |
| Test1Feed.OffsetFollowsDrift | src/data-feeds/test1-ccxt-feed.ts:41-55 | the offset is positive exactly for a rise of the recent prices and negative exactly for a fall |
| Test1Feed.MeanStepIsMove | src/data-feeds/test1-ccxt-feed.ts:41-42 | the mean step is the overall move over the number of steps |
| Test1Feed.Test1Value | src/data-feeds/test1-ccxt-feed.ts:14-17 | given the ccxt value and the price state: the value is for the requested feed and within 0.001 of that value |
| Test1Feed.Test1GetValue | src/data-feeds/test1-ccxt-feed.ts:10-29 | on the provider state: within 0.001 of the ccxt `getValue` result, equal to it with fewer than five prices left after its purge, and leaving the state that call leaves |
| Test1Feed.Test1IgnoresStale | src/data-feeds/test1-ccxt-feed.ts:10-17 | a price older than 30 minutes never moves the offset: the purged state gives the same value and fallbacks |
| Test2Feed.RelativeChange | src/data-feeds/test2-ccxt-feed.ts:69 | NaN exactly for a zero oldest price; for a positive one its sign is the sign of the move |
| Test2Feed.EstimateTrend | src/data-feeds/test2-ccxt-feed.ts:57-72 | 0 for an absent symbol or fewer than 2 prices; otherwise the relative change from oldest to newest |
| Test2Feed.TrendFromOldestToNewest | src/data-feeds/test2-ccxt-feed.ts:61-69 | the trend compares the prices with the earliest and the latest time |
| Test2Feed.QuietStoresNoVolume | src/data-feeds/test2-ccxt-feed.ts:81-84 | stores without trades add up to no volume |
| Test2Feed.VolumeBias | src/data-feeds/test2-ccxt-feed.ts:77-90 | the bias is 0 or −0.00003 |
| Test2Feed.VolumeBiasExact | src/data-feeds/test2-ccxt-feed.ts:81-89 | −0.00003 exactly when the 60-second volume exceeds 50000 |
| Test2Feed.QuietSymbolNoBias | src/data-feeds/test2-ccxt-feed.ts:78-79 | a symbol with no stores has no bias |
| Test2Feed.NoiseBound | src/data-feeds/test2-ccxt-feed.ts:39 | noise lies in [−0.000025, 0.000025) |
| Test2Feed.AdjustPrice | src/data-feeds/test2-ccxt-feed.ts:36-52 | NaN exactly for a NaN trend |
| Test2Feed.AdjustDirection | src/data-feeds/test2-ccxt-feed.ts:41-43 | a positive price moves up exactly when the combined bias is positive |
| Test2Feed.FlatAdjustBound | src/data-feeds/test2-ccxt-feed.ts:39-43 | with no trend the price moves by at most 0.0000550 of itself |
| Test2Feed.AdjustBound | src/data-feeds/test2-ccxt-feed.ts:36-44 | the adjusted price moves by at most half the trend, the volume discount and half the noise span, times the price |
| Test2Feed.AdjustFacts | src/data-feeds/test2-ccxt-feed.ts:36-44 | for any trend: the direction for a positive price, the bound on the move, and a move by the noise alone without trend or discount |
| Test2Feed.Test2Value | src/data-feeds/test2-ccxt-feed.ts:12-19 | given the ccxt value and the price state: the value is for the requested feed; NaN exactly for a NaN trend; a positive price rises exactly when the biases sum above 0 and falls exactly when below; it moves by at most (half the trend + 0.00003 + 0.000025) times the price; a feed with no stored prices and no volume stores moves by at most 0.000025 of the price |
| Test2Feed.Test2GetValue | src/data-feeds/test2-ccxt-feed.ts:10-19 | on the provider state: the trend is estimated on the prices the ccxt `getValue` leaves; NaN exactly when that trend is; the move from the ccxt value is bounded; the state afterwards is that call's |
| Test2Feed.Test2IgnoresStale | src/data-feeds/test2-ccxt-feed.ts:10-12 | for a configured feed a price older than 30 minutes never moves the result |
| Test5Feed.FindByName | src/data-feeds/test5-ccxt-feed.ts:155-159 | the first configuration entry with that name, matched by name only |
| Test5Feed.FreshPrice | src/data-feeds/test5-ccxt-feed.ts:163-173 | a source's price when present and at most 30000 ms old |
| Test5Feed.FreshPrices | src/data-feeds/test5-ccxt-feed.ts:163-173 | one fresh price per source at most |
| Test5Feed.NoFreshPrices | src/data-feeds/test5-ccxt-feed.ts:163-173 | stale or missing sources give no prices |
| Test5Feed.PctTrend | src/data-feeds/test5-ccxt-feed.ts:175-186 | for a zero first price, up exactly for a positive last and down exactly for a negative one |
| Test5Feed.PctTrendThresholds | src/data-feeds/test5-ccxt-feed.ts:175-186 | for a positive first price, up exactly when last − first > 0.03 % of first, down exactly for the mirror |
| Test5Feed.Trend15s | src/data-feeds/test5-ccxt-feed.ts:154-193 | flat for a name without a configuration entry |
| Test5Feed.StaleSourcesFlat | src/data-feeds/test5-ccxt-feed.ts:163-177 | when no source is fresh the trend is flat |
| Test5Feed.OverRows | src/data-feeds/test5-ccxt-feed.ts:106 | the kept rows whose ccxt price lies above FTSO |
| Test5Feed.UnderRows | src/data-feeds/test5-ccxt-feed.ts:107 | the kept rows whose ccxt price lies below FTSO |
| Test5Feed.LastTwo | src/data-feeds/test5-ccxt-feed.ts:117 | the newest two rows at most |
| Test5Feed.AsWrittenNeverAdjusts | src/data-feeds/test5-ccxt-feed.ts:85-132 | reading the missing field, every branch returns the original price |
| Test5Feed.ScaledFilterDropsNearRow | src/data-feeds/test5-ccxt-feed.ts:85-92 | reading `ftso_price` but keeping the rescaling, a row 0.02 % above its FTSO price at eight decimals is still dropped, because `getPriceHistory` has already divided the prices by 10^8 |
| Test5Feed.NearOver | src/data-feeds/test5-ccxt-feed.ts:85-106 | corrected: the rows within 0.05 % of their FTSO price whose ccxt price lies above it |
| Test5Feed.NearUnder | src/data-feeds/test5-ccxt-feed.ts:85-107 | corrected: the rows within 0.05 % of their FTSO price whose ccxt price lies below it |
| Test5Feed.CorrectedAdjusts | src/data-feeds/test5-ccxt-feed.ts:85-132 | corrected: one near row whose submission sat 0.0003 above the FTSO price lowers a flat price from 1 to 0.99985 |
| Test5Feed.EmptyHistoryUnchanged | src/data-feeds/test5-ccxt-feed.ts:109-132 | corrected: without history the price is unchanged, whatever the trend |
| Test5Feed.AdjustBetweenCorrections | src/data-feeds/test5-ccxt-feed.ts:125-132 | corrected: flat gives the midpoint of the up and the down correction; every other trend gives one of them |
| Test5Feed.ForcedOverNeverRaises | src/data-feeds/test5-ccxt-feed.ts:118-126 | corrected: when submitted ≥ ccxt in every row and forceOver holds the price does not rise |
| Test5Feed.AvgOverNonNegative | src/data-feeds/test5-ccxt-feed.ts:106-111 | corrected: with submitted ≥ ccxt in every row the average over-gap is not negative |
| Test5Feed.ForcedUnderNeverLowers | src/data-feeds/test5-ccxt-feed.ts:119-127 | corrected: when submitted ≤ ccxt in every row and forceUnder holds the price does not fall |
| Test5Feed.AvgUnderNonNegative | src/data-feeds/test5-ccxt-feed.ts:107-115 | corrected: with submitted ≤ ccxt in every row the average under-gap is not negative |
| Test5Feed.Test5Value | src/data-feeds/test5-ccxt-feed.ts:9-41 | corrected: the value is for the requested feed; no feed id, id 0 or no history keep the original price |
| Test5Feed.Test5ValueAsWritten | src/data-feeds/test5-ccxt-feed.ts:9-60 | as written: the value is for the requested feed and is always the original ccxt price |
| FixedFeed.GetValue | src/data-feeds/fixed-feed.ts:14-19 | the requested feed with value 0.01 |
| FixedFeed.GetValues | src/data-feeds/fixed-feed.ts:21-24 | one entry per feed, in order, each 0.01 |
| FixedFeed.GetValuesAppend | src/data-feeds/fixed-feed.ts:21-24 | answering two lists is answering their concatenation |
| FixedFeed.GetVolumes | src/data-feeds/fixed-feed.ts:26-28 | always [] |
| RandomFeed.GetValue | src/data-feeds/random-feed.ts:7-12 | the requested feed with a value in [0.025, 0.075) for a draw in [0, 1) |
| RandomFeed.ValueOrdersDraws | src/data-feeds/random-feed.ts:7-12 | a larger draw gives a larger value |
| RandomFeed.GetValues | src/data-feeds/random-feed.ts:14-17 | one entry per feed, in order |
| RandomFeed.GetValuesInRange | src/data-feeds/random-feed.spec.ts:15-21 | every value lies in [0.025, 0.075) |
| RandomFeed.GetVolumes | src/data-feeds/random-feed.ts:19-21 | always [] |

## Left out

- Network, WebSocket, file, MySQL and on-chain I/O, logging, timers and the
  debug-only branches are not modelled. Their results are parameters.
- `Math.exp`, `Math.sqrt`, `Math.random` and `toFixed(8)` are parameters.
  Facts about their ranges are stated as preconditions of the lemmas that
  need them.
- Floating-point rounding and overflow are not modelled. Prices are exact
  reals.
- Infinity is not a value of the model. Where the source divides by zero,
  the model gives NaN.
- Test2Feed.RelativeChange: a zero oldest price gives ±Infinity in the source
  when the newest price is non-zero; the model gives NaN for both cases.
- The `catch` branches of `priceStrategie01`, `priceStrategie03` and
  Test5's `adjustPrice` are not modelled. No modelled input throws.
  Exceptions come only from I/O, or from the debug output of
  `priceStrategie03`, where `toISOString` throws for times outside
  ±8.64e15 ms.
- Test5's `getValue` does not model `storeSubmittedPrice` or the voting
  round id. These only write to the database.
- Test5 reads `submitted ?? ccxt_price`. The row type always has a number
  there, so the model always reads `submitted`.
- Test5's `getValue` reads the feed's decimals only for `storeSubmittedPrice`
  and for the rescaling of the as-written filter. The corrected
  `Test5Feed.AdjustPrice` works on the unscaled prices `getPriceHistory`
  returns, so `Test5Feed.Test5Value` takes no decimals.
- Test5Feed.Test5Value: composes the corrected `Test5Feed.AdjustPrice`, not
  the as-written one; `Test5Feed.Test5ValueAsWritten` models `getValue` as
  written, and under "## Findings" the difference is shown.
- Volumes.Slot: timestamps are taken as non-negative. Below 0,
  JavaScript's `%` gives a negative slot index, which the model, with its
  Euclidean `%`, does not reproduce.
- A WebSocket trade message whose price or amount is a non-empty string that
  `parseFloat` cannot read gives NaN in the source. The model's message holds
  a number or nothing, so such messages are not modelled.
- The one-row and five-row price histories `applyPriceStrategy` reads are
  separate database queries. The model takes them as independent inputs, so
  it does not relate the five-row history to the one-row one or bound its
  length at 5.
- The `LAMBDA` environment variable is a parameter.
- CcxtPrice.GetVolumesOnState: one clock reading serves the whole call, while the source reads `Date.now()` in every lookup; under one clock the repeated lookups the source makes while the rate is missing or zero give the same price and state (`CcxtPrice.RepeatedLookup`), so the model looks the rate up once.
- CcxtPrice.PRICE_TTL_MS: the `PRICE_TTL_MS` environment variable is not read; the model uses its default, 1800000 ms.
- Common.Lower, Common.Upper: case mapping covers the ASCII letters only.
  JavaScript's `toLowerCase` and `toUpperCase` apply the full Unicode case
  mapping (U+017F uppercases to "S", for one), so a feed name with such a
  letter is routed differently by the model.
- Sorting.SortBy: the model proves the permutation and the order, not that
  ties keep their input order.
- Strategie03.PriceStrategie03: `ccxtAverageUsd` and `mapAverageUsd` come
  from the same loop over the same map, so the model computes one average
  and uses it twice.
- CcxtPrice.GetFeedPrice: the recursive USDT lookup takes a fuel bound.
  The source recurses without limit when the USDT/USD feed's own sources
  end in "USDT"; the model stops there with no rate.
- CcxtPrice.FeedVolumesGet: the per-exchange volumes are stated for stores
  whose exchange keys are distinct, as the keys of a JavaScript `Map` are.
  The model's volume map is a list of pairs and does not rule out repeats
  by itself.
- Weighting.ApplyDecayWithCapAndStats: the contract does not state that the
  kept entries stay in input order.
- `fetchLastPrices`, the ticker and order-book branches of the WebSocket
  handlers, and the ping/pong messages are not modelled. They are I/O.
- The old files under `.old/`, `price-strategie02.ts`, `price-adjustment.ts`,
  the Test3 and Test4 feeds and `ftso-ccxt-feed.ts` are not part of this
  model.

## Findings

| source | as written | input that shows it | evidently intended | confidence | as-written member | corrected member |
|---|---|---|---|---|---|---|
| src/data-feeds/test5-ccxt-feed.ts:85-132 | the history filter, the over/under split and the last-two check read `row.ftso_value`, a field the rows of `getPriceHistory` do not have (src/utils/mysql.ts:39-53 declares `ftso_price`), so no row is kept, both averages are 0 and every branch returns the original price; the filter and the averages also rescale prices that `getPriceHistory` has already divided by 10^decimals (src/utils/mysql.ts:95-98), and the final step divides the average gap by 10^decimals once more | any history and trend, e.g. one row with ccxt 1.0002, submitted 1.0003 and FTSO 1.0 at 8 decimals and a flat trend: the price stays 1.0 | read `ftso_price` and compare, average and apply the gaps in the price units the rows carry, so that row lowers the price to 0.99985 | not executed | Test5Feed.AsWrittenNeverAdjusts | Test5Feed.CorrectedAdjusts |
