# Verification of the Crypto Watch Terminal

A Dafny model of the parts of the terminal and its backend whose correctness a finite set of examples cannot settle, with proofs. `dafny verify dfyconfig.toml` checks the whole project.

| file | what it models |
|---|---|
| `Treemap.dfy` | the squarified treemap of the market heatmap |
| `Candles.dfy`, `CandleBatches.dfy`, `LiveCandles.dfy`, `CoalescedCandles.dfy` | the fold from live trades to candles, the database's OHLC and extremes queries it should agree with, the hook around it, and what coalesced batches do to the chart |
| `Correlation.dfy`, `Indicators.dfy` | Pearson correlation, SMA, EMA, RSI and Bollinger bands |
| `PriceMap.dfy` | the last-write-wins price list of the live view |
| `Backoff.dfy`, `BackendFeed.dfy`, `BinanceFeed.dfy`, `BinanceRuns.dfy`, `CompositeFeed.dfy` | the two socket adapters, their fan-in, the hold switch |
| `Exposition.dfy`, `ExpositionGrammar.dfy`, `Metrics.dfy`, `MetricsText.dfy` | the backend's `/metrics` text and the dashboard's parser for it |
| `RateLimit.dfy` | the per-address request limiter |
| `Pipeline.dfy`, `PipelineRuns.dfy` | fetch, save, count, broadcast, forward: the sequential loops, and their interleavings |
| `RealSeq.dfy`, `Wrappers.dfy` | sums, means and inner products of real sequences; an option type |

How the model is built:

- Code that updates variables in loops or closures is a method or a class, proved equal to a function of its inputs or
  of its old state; the laws are lemmas about that function. Pure code is functions only.
- JavaScript numbers are exact reals where they are measurements and integers where they are millisecond times.
  `Math.floor` division is Dafny's division by a positive number. `Infinity` is a constructor of the treemap's score, a
  non-finite price a constructor of `Number`. `Math.sqrt` is a parameter of which only `IsSqrt` is known: the root of a
  non-negative number is its non-negative root.
- Rust's `u32` and `u64` counters wrap explicitly. The limiter's times are whole ticks of any unit, such as the
  nanoseconds of `Instant`.
- The socket adapters run in a browser model that follows the WHATWG WebSockets Standard: one close event per socket,
  no message unless the socket is open, closing a socket that is not yet closing makes it closing, and the peer may
  begin the closing handshake of an open socket. Each event that the
  browser, the user or the subscriber may produce is a step, and the theorems hold for every sequence of enabled steps.
  The animation frame and the interval may call a subscriber that unsubscribes from inside the call (`cancels`).
- A JavaScript `Map` is the list of its entries in insertion order, which is what `Array.from` observes.
- The provider's answer, the database's faults, the clock and the network are parameters or events.

What the proofs showed about the code, besides the properties it promises:

- The treemap clamps negative weights after scaling by the unclamped total, so with a negative weight the areas overfill
  the container and the result is no fair tiling (`SquarifyTilesIff`); the caller filters such weights out (frontend/src/presentation/components/MarketHeatmap.tsx:59-61).
- The limiter opens a window at the first request after the last one, so one address can be admitted 2 * max - 1 times
  within one window's length. `IntervalBound` is the best bound for every length (`BoundIsReached`). As long as
  no 32-bit counter wraps, the promise in the name `per_minute` is kept exactly for a maximum of 1
  (`KeepsItsNameUnwrappedIff`); with wraps it is kept for no maximum (`NameIsNotKept`), and a single window keeps to the
  maximum exactly when its counter does not wrap (`WindowsKeepTheMaximumIff`).
- The RSI mirror law fails exactly where every step that the averages remember was flat, so that both directions read
  100 (frontend/src/domain/indicators.ts:46); with period 1 they remember the last step only.
- Unsubscribing from inside a frame's delivery leaves one animation frame requested, because `tick` asks for the next
  frame after the flush; that frame then does nothing. The fallback timer's delivery leaves none (`StrayFrameIff`).
- An exchange feed whose symbol list came back without streams stops trying for good, although the subscription is live
  (`BinanceRuns.SingleAttempt`).
- While held, the exchange adapter keeps the trades for later and the backend adapter drops its frames, as
  frontend/src/infrastructure/websocket/websocket-price-stream.ts:12-13 says.
- The live candle hook folds only the first matching price of a batch. The backend names prices by ticker
  (src/presentation/dto.rs:18), so a batch may hold two prices of one ticker, and the second is lost (`SecondHitIsLost`);
  all prices are folded exactly when there is at most one (`FoldsEveryHitIff`), as in every batch of the exchange.
- The fold reads a bucket in order of arrival, the OHLC query by `observed_at`: trades that arrive out of time order within
  one bucket give a candle that no answer of the query has (`OutOfOrderInBucket`, `MatchesQueryIff`).
- Coalescing is transparent to the price list but not to the candle chart, which keeps its newest bucket and its close but may
  lose an extreme (`ExtremeIsLost`) or, once the cap cuts candles off, gain one (`ExtremeIsGained`).

## Model

| member | source | states |
|---|---|---|
| `Treemap.SquarifyTilesContainer` | frontend/src/domain/treemap.ts:8-77 | for non-negative weights with positive total: one rectangle per weight in order, each with its weight's share of the container's area, none sticking out, and every point of the half-open container in exactly one of them |
| `Treemap.LayoutTiles` | frontend/src/domain/treemap.ts:30-74 | the outer loop, from any state in which the remaining areas fill the remaining box, covers every point of the box once and no other point |
| `Treemap.LayoutKeepsAreas` | frontend/src/domain/treemap.ts:30-74 | each emitted rectangle has exactly its area and lies within the box |
| `Treemap.RowCutsItsArea` | frontend/src/domain/treemap.ts:48-73 | one row cuts exactly its own area off the box, the rest keeps filling the rest, and neither `Math.max(0, ...)` ever changes a value |
| `Treemap.RowTilesStrip` | frontend/src/domain/treemap.ts:51-72 | the cells of one row, in either orientation, tile the row's strip |
| `Treemap.SquarifyTilesIff` | frontend/src/domain/treemap.ts:15-77 | on a container of positive sides the result is such a fair tiling if and only if no weight is negative |
| `Treemap.AreasFillContainerIff` | frontend/src/domain/treemap.ts:22-24 | clamping negative weights overfills the container: the scaled areas add up to it if and only if no weight is negative |
| `Treemap.Squarify` | frontend/src/domain/treemap.ts:15-77 | the nested loops, updating x, y, w, h and i, compute the layout function; so for any weights and container they return nothing without a positive total, and else place every rectangle row by row where the source does |
| `Treemap.GrowRow` | frontend/src/domain/treemap.ts:33-46 | the inner loop takes the longest run in which no single step makes the score worse |
| `Treemap.PlaceRow` | frontend/src/domain/treemap.ts:51-72 | the placing loop, moving a cursor, lays the cells along the edge from the start on, each as long as its area over the thickness and each where those before it end |
| `Treemap.ScoreIsLargestAspect` | frontend/src/domain/treemap.ts:80-88 | for a row of positive areas on a box of positive sides the score is finite and equals the largest of w/h and h/w over the rectangles the layout emits for that row, in both orientations |
| `Treemap.ScoreOfPrefix` | frontend/src/domain/treemap.ts:33-46 | for descending areas the score of the first k is the larger of a falling and a rising quantity in their sum |
| `Treemap.NeverRecovers` | frontend/src/domain/treemap.ts:33-46 | once lengthening the row makes the score worse, no longer row is better than that |
| `Treemap.GreedyRowIsOptimal` | frontend/src/domain/treemap.ts:33-46 | the length at which the loop stops minimises the score over all lengths from that start, and every longer row scores strictly worse |
| `Treemap.GreedyRowIsSquarest` | frontend/src/domain/treemap.ts:8-14 | in geometry: no row that could be laid instead has a smaller largest aspect ratio |
| `Treemap.LayoutIsOptimal` | frontend/src/domain/treemap.ts:30-46 | every row that the outer loop emits is optimal on the box that remains when it is laid |
| `Treemap.SquarifyIsOptimal` | frontend/src/domain/treemap.ts:8-46 | for weights in descending order every row of the whole layout is optimal |
| `Treemap.RowLies` | frontend/src/domain/treemap.ts:48-73 | for every row and box, where each cell lies: along the top from the left when the box is no wider than high, else along the left from the top, at the summed areas before it over the thickness |
| `Treemap.LayoutIsLaidOut` | frontend/src/domain/treemap.ts:30-74 | for any areas and box: row by row, each row the greedy one, its cells where `RowLies` says, the others in the box below the row or right of it |
| `Treemap.SquarifyIsLaidOut` | frontend/src/domain/treemap.ts:15-77 | for any weights and container: nothing without a positive total, else that layout of each weight's share of the area, negative weights counting as nothing |
| `Treemap.ScoreIsInfiniteIff` | frontend/src/domain/treemap.ts:80-88 | for non-negative areas the score is infinite exactly on an empty side or with an area of nothing in the row |
| `Candles.CappingCommutes` | frontend/src/domain/candles.ts:36-51 | for trades in any order and any cap, folding with the cap shows exactly the last candles of the uncapped fold, although a late print returns before the cap line |
| `Candles.UncappedFold` | frontend/src/domain/candles.ts:20-51 | with a cap that cannot act the fold is the uncapped series |
| `Candles.LastNIsSuffix` | frontend/src/domain/candles.ts:51 | a cap keeps the newest candles, as many as it allows |
| `Candles.RejectedTicks` | frontend/src/domain/candles.ts:22-39 | a price that is not finite, a width that is not positive or a time before the open bucket changes nothing, even when more candles are shown than the cap allows |
| `Candles.AcceptedTicks` | frontend/src/domain/candles.ts:24-51 | any other trade closes the newest candle, whose bucket holds its time; in the open bucket the range grows just enough and the open stays, in a later one the open is the last close; earlier candles are untouched but for the cap |
| `Candles.LatePrintsAreFiltered` | frontend/src/domain/candles.ts:36-39 | for prints in any order the fold equals the fold of the prints whose bucket is not below the running maximum |
| `Candles.KeptIsOrdered` | frontend/src/domain/candles.ts:36-39 | what the filter keeps is in bucket order and was printed |
| `Candles.LastIsNewest` | frontend/src/domain/candles.ts:26-36 | the last candle is the newest bucket printed so far |
| `Candles.LateIsLate` | frontend/src/domain/candles.ts:36-39 | comparing with the open bucket is comparing with every print seen |
| `Candles.TimeOrderIsEnough` | frontend/src/domain/candles.ts:24-39 | trades in time order never print late, at any bucket width |
| `Candles.BucketIsAligned` | frontend/src/domain/candles.ts:24 | a bucket start is a multiple of the width, at or below the trade and less than one width before it |
| `Candles.FoldTickKeepsShape` | frontend/src/domain/candles.ts:10-51 | every tick at any cap keeps the buckets strictly increasing and aligned, each open the preceding close, and l <= min(o, c) <= max(o, c) <= h; unless the print was late, at most the cap is shown |
| `Candles.SeriesIsWellFormed` | frontend/src/domain/candles.ts:10-51 | a whole series has that shape |
| `CandleBatches.FoldMatchesQueries` | src/infrastructure/persistence/postgres.rs:138-248 | for trades in time order the fold keeps every finite trade, its candles are an answer of the OHLC query (first and last value by `observed_at`, ties either way) with opens moved to the previous close and ranges widened to contain them, and their range is that of the extremes query |
| `CandleBatches.MatchesQueryIff` | src/infrastructure/persistence/postgres.rs:218-228 | for trades in any order the candles are such an answer over the kept trades if and only if each bucket's last arrival may close it and the very first may open its own; for buckets without equal prices, if and only if those arrivals are latest and earliest by time |
| `CandleBatches.OutOfOrderInBucket` | frontend/src/domain/candles.ts:28-35 | two trades of one bucket arriving out of time order, whose candle is in no answer of the query |
| `CandleBatches.SeriesIsBatch` | frontend/src/domain/candles.ts:24-49 | for ordered prints there is exactly one candle per bucket, closing with the bucket's last arrival, ranging over its values and its open, which is the previous close |
| `CandleBatches.SeriesHasExtremes` | src/infrastructure/persistence/postgres.rs:138-169 | for ordered prints the highest high and the lowest low are the MAX and the MIN over all of them |
| `CandleBatches.OrderedIsKept` | frontend/src/domain/candles.ts:36-39 | nothing of an ordered list is filtered |
| `CandleBatches.Resampling` | frontend/src/domain/candles.ts:15-51 | for trades in time order and any k >= 1 the fold at width k*b equals the fold at width b merged into buckets of width k*b: first open, highest high, lowest low, last close |
| `CandleBatches.CoarseSeriesIsMerged` | frontend/src/presentation/components/terminal/MarketHero.tsx:19-24 | the same prints at a coarser bucket give the merged candles, as switching the bucket selector expects |
| `CandleBatches.MergeAbsorbs` | frontend/src/domain/candles.ts:26-49 | absorbing one print commutes with merging |
| `LiveCandles.FoldsEveryHitIff` | frontend/src/presentation/hooks/useLiveCandles.ts:55-56 | the hook folds every USD price of the coin in a batch if and only if there is at most one |
| `LiveCandles.SecondHitIsLost` | src/presentation/dto.rs:15-25 | a batch with two prices under one ticker, of which only the first is folded |
| `LiveCandles.DistinctLosesNone` | frontend/src/presentation/hooks/useLiveCandles.ts:55-56 | a batch with one price per key loses none |
| `LiveCandles.FoldsTheFirst` | frontend/src/presentation/hooks/useLiveCandles.ts:55-63 | of any batch the hook folds the first USD price of its coin, with its number and its time, and nothing if there is none |
| `LiveCandles.Hook.constructor` | frontend/src/presentation/hooks/useLiveCandles.ts:28-30 | a mounted hook shows nothing yet |
| `LiveCandles.Hook.Render` | frontend/src/presentation/hooks/useLiveCandles.ts:34-47 | a changed coin or width empties the series and the tape, and the seed fires once for each and is the tape's first trade; in every state the candles have one width, are continuous, and are the newest of the uncapped fold of the tape |
| `LiveCandles.Hook.OnPrices` | frontend/src/presentation/hooks/useLiveCandles.ts:52-69 | a batch folds its first USD price of the coin and puts it on the tape, or changes nothing |
| `LiveCandles.Hook.Tick` | frontend/src/presentation/hooks/useLiveCandles.ts:57-66 | the fold of one price is stored and the price put on the tape, of whose fold the candles stay the newest part |
| `LiveCandles.TapeTicks` | frontend/src/presentation/hooks/useLiveCandles.ts:57-66 | a tick at any cap, even one that changes between ticks, keeps showing the newest candles of the uncapped fold |
| `CoalescedCandles.HookSeesTheLast` | frontend/src/presentation/hooks/useLiveCandles.ts:55-63 | from a coalesced batch the hook folds exactly the last of the coin's trades in it |
| `CandleBatches.CappedRange` | frontend/src/domain/candles.ts:51 | for ordered prints a chart capped at m candles ranges exactly over the prints of the newest m buckets and the one before them, at which its oldest candle opens |
| `LiveCandles.DeliverAll` | frontend/src/presentation/hooks/useLiveCandles.ts:52-69 | over any batches the hook shows the last candles, up to its cap, of the fold of what it folded of them |
| `CoalescedCandles.ChartRange` | frontend/src/domain/candles.ts:51 | the range of a capped chart is that of the prints it shows, and no other |
| `CoalescedCandles.CoalescedChart` | frontend/src/presentation/hooks/useLiveCandles.ts:52-66 | for trades in time order and any cap, the hook's chart of coalesced batches and its chart of every trade have the same newest bucket and close; each ranges exactly over what it shows, so the ranges agree if and only if what is shown of the survivors has the extremes of what is shown of the whole; where the cap cuts nothing off, the survivors' chart stays within the other's range and reaches it if and only if both extremes are each the coin's last in some batch |
| `CoalescedCandles.ExtremeIsLost` | frontend/src/presentation/hooks/useLiveCandles.ts:52-66 | a high followed by a low in one batch, whose high the chart loses at any cap |
| `CoalescedCandles.ExtremeIsGained` | frontend/src/presentation/hooks/useLiveCandles.ts:52-66 | a batch that swallows a bucket of its own, after which a chart capped at one candle opens at a high that the chart of every trade has cut off |
| `CoalescedCandles.ExchangeChart` | frontend/src/infrastructure/websocket/binance-price-stream.ts:37-52 | all of that holds between the chart of the delivered batches and the chart of every trade received, for every run of the exchange adapter that has nothing pending |
| `CoalescedCandles.ExchangeBatchesLoseNone` | frontend/src/infrastructure/websocket/binance-price-stream.ts:37-45 | no batch of the exchange adapter has a second price for the hook to lose |
| `Correlation.ComputePearson` | frontend/src/domain/correlation.ts:7-28 | the accumulator loops compute the coefficient of the series, aligned at their ends and centred |
| `Correlation.Sums` | frontend/src/domain/correlation.ts:13-16 | the first loop adds up both series |
| `Correlation.Moments` | frontend/src/domain/correlation.ts:17-24 | the second loop computes covariance and variances as inner products |
| `Correlation.CauchySchwarz` | frontend/src/domain/correlation.ts:17-26 | cov^2 <= vx * vy, with equality exactly when one centred series is a multiple of the other |
| `Correlation.PearsonClampIsIdle` | frontend/src/domain/correlation.ts:26-27 | the root is positive and the clamp never changes the exact quotient |
| `Correlation.CoefficientIsExtreme` | frontend/src/domain/correlation.ts:25-27 | the coefficient of centred series lies in [-1, 1], and is 1 or -1 exactly for positive or negative multiples |
| `Correlation.PearsonIsExtreme` | frontend/src/domain/correlation.ts:6-28 | r is in [-1, 1]; it is 1 (or -1) exactly when the centred tails are positive (or negative) multiples of each other and not constant |
| `Correlation.OlderPointsDoNotMatter` | frontend/src/domain/correlation.ts:9-12 | whatever precedes the longer series leaves the coefficient unchanged: the most recent points are compared |
| `Correlation.PearsonOfEqualLengths` | frontend/src/domain/correlation.ts:13-27 | of two series of one length it is the covariance over the root of the product of the variances, about the means, and 0 for fewer than two points or a constant series |
| `Correlation.PearsonIsSymmetric` | frontend/src/domain/correlation.ts:6-28 | r does not depend on the order of the series |
| `Correlation.PearsonIsAffineInvariant` | frontend/src/domain/correlation.ts:6-28 | r is unchanged by increasing affine maps and negated by decreasing ones |
| `Correlation.SelfPearson` | frontend/src/domain/correlation.ts:30-36 | the self-correlation is 1 exactly for non-constant series of two or more points, so there the forced diagonal is the computed one; else it is 0 |
| `Correlation.CorrelationMatrix` | frontend/src/domain/correlation.ts:30-43 | the matrix filled in place has a unit diagonal and the coefficient of its row and column everywhere else, hence is symmetric |
| `Indicators.Sma` | frontend/src/domain/indicators.ts:7-17 | the running sum yields the true mean of every full window and nothing before |
| `Indicators.RunningSlides` | frontend/src/domain/indicators.ts:11-14 | adding the newest value and dropping the oldest is the sum of the next window |
| `Indicators.SmaIsMean` | frontend/src/domain/indicators.ts:7-17 | at every index the sum of the `period` values up to it over the period, and nothing before there are that many |
| `Indicators.Ema` | frontend/src/domain/indicators.ts:19-31 | the loop computes the recursion from the seed mean, nothing during the warm-up, and nothing at all for a short series or a non-positive period |
| `Indicators.EmaIsWeightedSum` | frontend/src/domain/indicators.ts:19-31 | each value is the weighted sum of all values so far, with geometric weights |
| `Indicators.WeightsSumToOne` | frontend/src/domain/indicators.ts:23-27 | the weights are non-negative and sum to 1 |
| `Indicators.EmaIsBetween` | frontend/src/domain/indicators.ts:19-31 | each value lies between any bounds of the values seen so far |
| `Indicators.EmaSteps` | frontend/src/domain/indicators.ts:20-31 | the first average times the period is the sum of the first values; each later one times period + 1 is twice the new value plus period - 1 times the average before it |
| `Indicators.Rsi` | frontend/src/domain/indicators.ts:33-55 | the seed loop and Wilder's recursion yield the index from the two smoothed averages, from index `period` on, null before, and NaN throughout for a period below 1 |
| `Indicators.Seed` | frontend/src/domain/indicators.ts:37-43 | the seed loop adds up the rises and the falls |
| `Indicators.RsiIsPercentage` | frontend/src/domain/indicators.ts:33 | every value lies in [0, 100] |
| `Indicators.RsiMirrors` | frontend/src/domain/indicators.ts:46-53 | RSI of the negated series is 100 minus RSI exactly when some step the averages remember was not flat |
| `Indicators.RsiIsScaleFree` | frontend/src/domain/indicators.ts:33-55 | RSI is unchanged by v -> c*v + d with c > 0 |
| `Indicators.AverageIsWeightedSum` | frontend/src/domain/indicators.ts:37-51 | Wilder's average is a geometrically weighted sum of every gain so far: 1/period, times (period - 1)/period for every later step, the seed's steps ageing as one block |
| `Indicators.RsiIsShareOfMovement` | frontend/src/domain/indicators.ts:46-53 | with gains and losses weighted so, the index is 100 without losses and else the gains' share of all movement in percent |
| `Indicators.Bollinger` | frontend/src/domain/indicators.ts:63-78 | the loops yield the mid line and the two bands of every full window |
| `Indicators.Scatter` | frontend/src/domain/indicators.ts:71-72 | the inner loop computes the sum of squared deviations of the window |
| `Indicators.BollingerBandsHold` | frontend/src/domain/indicators.ts:63-78 | the bands are symmetric about the mean, meet exactly on a constant window, and the number of window values strictly outside times mult^2 is at most the period |
| `Indicators.BandsAreExact` | frontend/src/domain/indicators.ts:65-77 | for any multiplier the bands lie either side of the window's mean, at a distance whose square times the period is the multiplier's square times the summed squared deviations, the upper one above as the multiplier's sign says |
| `Indicators.BandsAreChebyshev` | frontend/src/domain/indicators.ts:71-75 | Chebyshev's inequality for the window's values and its bands |
| `Indicators.BandsCollapseIff` | frontend/src/domain/indicators.ts:71-75 | the half width is zero exactly when the window is constant |
| `PriceMap.KeyIsInjective` | frontend/src/presentation/hooks/useLivePrices.ts:13-15 | two prices share a key exactly when they share coin and currency |
| `PriceMap.LastWriteWins` | frontend/src/presentation/hooks/useLivePrices.ts:48-50 | a merged list holds the last write of every key and the old entry where nothing was written |
| `PriceMap.PutInPlace` | frontend/src/presentation/hooks/useLivePrices.ts:49-50 | a write to a key that is there takes the place of its entry, one to a new key goes to the end |
| `PriceMap.CoalescingIsTransparent` | frontend/src/presentation/hooks/useLivePrices.ts:48-53 | merging a batch that was coalesced first gives the same list, in the same order, as merging every price |
| `PriceMap.PutAllOfPut` | frontend/src/presentation/hooks/useLivePrices.ts:48-50 | merging a map with one more write is merging the map, then the write |
| `PriceMap.CoalescedIsDistinct` | frontend/src/infrastructure/websocket/binance-price-stream.ts:37-45 | a coalesced batch has one entry per key, and is empty only if nothing was received |
| `PriceMap.LivePrices.constructor` | frontend/src/presentation/hooks/useLivePrices.ts:23-28 | a mounted component is loading, with an empty list |
| `PriceMap.LivePrices.OnSnapshot` | frontend/src/presentation/hooks/useLivePrices.ts:36-39 | the snapshot replaces the list and clears loading and error, unless cancelled |
| `PriceMap.LivePrices.OnSnapshotFailed` | frontend/src/presentation/hooks/useLivePrices.ts:40-43 | a failed snapshot clears loading and keeps the message, unless cancelled |
| `PriceMap.LivePrices.OnPrices` | frontend/src/presentation/hooks/useLivePrices.ts:46-58 | the callback rebuilds the Map from the list, sets every incoming price, clears loading and goes live; after the cancellation it changes nothing |
| `CompositeFeed.DeliverAll` | frontend/src/presentation/hooks/useLivePrices.ts:46-58 | over any batches a mounted component's list is the merge of them all |
| `PriceMap.DistinctIsKept` | frontend/src/presentation/hooks/useLivePrices.ts:49 | rebuilding the Map from a list without repeated keys changes nothing |
| `PriceMap.LivePrices.Unmount` | frontend/src/presentation/hooks/useLivePrices.ts:60-63 | unmounting keeps the list and cancels |
| `Backoff.TotalDelayIs` | frontend/src/infrastructure/websocket/binance-price-stream.ts:105-110 | n failures in a row add up to 1000 * (2^n - 1) ms up to five, and 31000 + 30000 * (n - 5) ms beyond |
| `BackendFeed.Subscription.constructor` | frontend/src/infrastructure/websocket/websocket-price-stream.ts:16-49 | subscribing opens the first socket |
| `BackendFeed.Subscription.ConnectNow` | frontend/src/infrastructure/websocket/websocket-price-stream.ts:22-24 | the next socket replaces the current one, unless stopped |
| `BackendFeed.Subscription.Reconnect` | frontend/src/infrastructure/websocket/websocket-price-stream.ts:42-47 | a timer is armed with the capped exponential delay, unless stopped |
| `BackendFeed.Subscription.CloseSocket` | frontend/src/infrastructure/websocket/websocket-price-stream.ts:39 | closing moves a connecting or open socket to closing |
| `BackendFeed.Subscription.OnOpen` | frontend/src/infrastructure/websocket/websocket-price-stream.ts:26-28 | the callback takes the machine's step |
| `BackendFeed.Subscription.OnMessage` | frontend/src/infrastructure/websocket/websocket-price-stream.ts:29-37 | the callback takes the machine's step |
| `BackendFeed.Subscription.OnClose` | frontend/src/infrastructure/websocket/websocket-price-stream.ts:38-39 | the close event, after an error event or not, takes the machine's step |
| `BackendFeed.Subscription.OnTimer` | frontend/src/infrastructure/websocket/websocket-price-stream.ts:46 | the timer takes the machine's step |
| `BackendFeed.Subscription.Cancel` | frontend/src/infrastructure/websocket/websocket-price-stream.ts:51-55 | the returned closure takes the machine's step |
| `BackendFeed.StepKeepsInv` | frontend/src/infrastructure/websocket/websocket-price-stream.ts:16-55 | every callback in every interleaving keeps: all sockets but the current one are closed, and the current one is live exactly when no timer is armed |
| `BackendFeed.SingleAttempt` | frontend/src/infrastructure/websocket/websocket-price-stream.ts:16-55 | in every reachable state a live subscription has exactly one unclosed socket or armed timer, and a stopped one has no timer |
| `BackendFeed.StoppedIsFinal` | frontend/src/infrastructure/websocket/websocket-price-stream.ts:42-55 | after unsubscribing no socket is opened, no timer armed and no batch delivered, whatever happens |
| `BackendFeed.StoppedIff` | frontend/src/infrastructure/websocket/websocket-price-stream.ts:15-57 | over every run the subscription has stopped if and only if it was unsubscribed |
| `BackendFeed.DeliversUnheldFrames` | frontend/src/infrastructure/websocket/websocket-price-stream.ts:29-37 | over every run the subscriber is given exactly the well-formed frames that arrived while the feed was not held, in order |
| `BackendFeed.AttemptCountsFailures` | frontend/src/infrastructure/websocket/websocket-price-stream.ts:26-47 | the attempt counter is the number of drops since the last open |
| `BackendFeed.DropArmsBackoff` | frontend/src/infrastructure/websocket/websocket-price-stream.ts:42-47 | a drop arms exactly one timer, due after min(30000, 1000 * 2^n) ms for the n failures in a row before it |
| `BackendFeed.HistoryIsOfEvents` | frontend/src/infrastructure/websocket/websocket-price-stream.ts:42-47 | the start of the current failure streak and the clock are determined by the events |
| `BackendFeed.ReconnectWaits` | frontend/src/infrastructure/websocket/websocket-price-stream.ts:42-47 | after n consecutive failures the next socket opens no sooner after the first of them than the n delays add up to |
| `BinanceFeed.Subscription.constructor` | frontend/src/infrastructure/websocket/binance-price-stream.ts:27-62 | subscribing starts the flush clocks and the first connection attempt |
| `BinanceFeed.Subscription.ConnectNow` | frontend/src/infrastructure/websocket/binance-price-stream.ts:64-68 | an attempt asks for the symbols, unless stopped |
| `BinanceFeed.Subscription.OnSymbols` | frontend/src/infrastructure/websocket/binance-price-stream.ts:73-79 | after the await, the attempt gives up without streams or when stopped, else opens the next socket |
| `BinanceFeed.Subscription.OnSymbolsFailed` | frontend/src/infrastructure/websocket/binance-price-stream.ts:69-72 | a failed symbol list schedules a reconnect |
| `BinanceFeed.Subscription.Reconnect` | frontend/src/infrastructure/websocket/binance-price-stream.ts:105-110 | a timer is armed with the capped exponential delay, unless stopped |
| `BinanceFeed.Subscription.CloseSocket` | frontend/src/infrastructure/websocket/binance-price-stream.ts:102 | closing moves a connecting or open socket to closing |
| `BinanceFeed.Subscription.OnOpen` | frontend/src/infrastructure/websocket/binance-price-stream.ts:81-83 | the callback takes the machine's step |
| `BinanceFeed.Subscription.OnMessage` | frontend/src/infrastructure/websocket/binance-price-stream.ts:84-100 | the callback takes the machine's step: a trade is buffered, anything else is ignored; `TradeIsBuffered` says under what |
| `BinanceFeed.Subscription.OnClose` | frontend/src/infrastructure/websocket/binance-price-stream.ts:101-102 | the close event, after an error event or not, takes the machine's step |
| `BinanceFeed.Subscription.OnTimer` | frontend/src/infrastructure/websocket/binance-price-stream.ts:109 | the timer takes the machine's step |
| `BinanceFeed.Subscription.NextFrame` | frontend/src/infrastructure/websocket/binance-price-stream.ts:51 | one more frame is requested |
| `BinanceFeed.Subscription.FlushNow` | frontend/src/infrastructure/websocket/binance-price-stream.ts:39-46 | the buffer is handed over and cleared, unless held or empty; the subscriber may cancel within |
| `BinanceFeed.Subscription.OnFrame` | frontend/src/infrastructure/websocket/binance-price-stream.ts:48-52 | the frame callback takes the machine's step |
| `BinanceFeed.Subscription.OnInterval` | frontend/src/infrastructure/websocket/binance-price-stream.ts:57-61 | the fallback timer takes the machine's step |
| `BinanceFeed.Subscription.Cancel` | frontend/src/infrastructure/websocket/binance-price-stream.ts:114-120 | the returned closure stops frames, timers and socket |
| `BinanceFeed.StreamsAreJoined` | frontend/src/infrastructure/websocket/binance-price-stream.ts:73-77 | the joined stream list is empty exactly when every symbol is USDT itself |
| `BinanceFeed.StreamsSplitIff` | frontend/src/infrastructure/websocket/binance-price-stream.ts:73-76 | the joined list, split at its slashes, is the lower-case symbol followed by `usdt@trade` for every symbol but USDT, in order, if and only if no such symbol has a slash of its own |
| `BinanceFeed.UsdtInAnyCase` | frontend/src/infrastructure/websocket/binance-price-stream.ts:74 | the symbol left out is USDT, each letter in either case |
| `BinanceFeed.CoinIsBase` | frontend/src/infrastructure/websocket/binance-price-stream.ts:89 | the coin is what precedes one trailing USDT, or the whole symbol |
| `BinanceFeed.StepKeepsConn` | frontend/src/infrastructure/websocket/binance-price-stream.ts:64-120 | every callback in every interleaving keeps the connection invariant, including the time already waited |
| `BinanceFeed.StepKeepsClock` | frontend/src/infrastructure/websocket/binance-price-stream.ts:48-62 | while subscribed exactly one frame is requested and the fallback timer runs; after stopping at most one stray frame is left |
| `BinanceFeed.FlushKeepsShown` | frontend/src/infrastructure/websocket/binance-price-stream.ts:39-46 | a flush keeps: what was delivered shows exactly the trades that were flushed, and the rest is pending, coalesced |
| `BinanceFeed.ReceiveKeepsShown` | frontend/src/infrastructure/websocket/binance-price-stream.ts:84-96 | so does receiving a trade |
| `BinanceRuns.RunKeepsInv` | frontend/src/infrastructure/websocket/binance-price-stream.ts:27-120 | over every run all of that holds: the connection, the clocks, and what was delivered and is pending |
| `BinanceRuns.SingleAttempt` | frontend/src/infrastructure/websocket/binance-price-stream.ts:64-120 | in every reachable state there is at most one awaited symbol list, unclosed socket or armed timer; while subscribed there is exactly one if and only if no symbol list came back without streams |
| `BinanceRuns.CoalescedRunIsTransparent` | frontend/src/infrastructure/websocket/binance-price-stream.ts:14-52 | for every interleaving, holds and hidden tabs included, merging the delivered batches and then the pending trades gives the last-write-wins list of every trade received; after a flush the merged view alone does |
| `BinanceRuns.TradeIsBuffered` | frontend/src/infrastructure/websocket/binance-price-stream.ts:84-95 | a trade whose symbol is the coin with USDT behind it, or a coin that has none behind it, is buffered as the USD price of the coin with the frame's price and time, and changes no other key |
| `BinanceRuns.MergedIsLastQuote` | frontend/src/infrastructure/websocket/binance-price-stream.ts:84-100 | over every run and for every coin, once what was delivered and what is pending are merged, the list shows the price and the time of the last frame that quotes the coin, or its old entry, and entries in other currencies stay |
| `BinanceRuns.HandsOverIff` | frontend/src/infrastructure/websocket/binance-price-stream.ts:39-62 | exactly an animation frame while subscribed, or the fallback timer in a hidden tab or without frames, hands the pending trades over as one batch, unless held or empty; the subscription stops by unsubscribing or when the subscriber cancels in such a delivery |
| `BinanceRuns.FlushIsDue` | frontend/src/infrastructure/websocket/binance-price-stream.ts:48-62 | while subscribed and not held, a frame is always due and drains the buffer, and so does the timer in a hidden tab or without frames; in a visible tab it does nothing |
| `BinanceRuns.StoppedIsFinal` | frontend/src/infrastructure/websocket/binance-price-stream.ts:64-120 | after unsubscribing, also from inside the subscriber or during the await, no socket is opened, no timer armed and no batch delivered |
| `BinanceRuns.StrayFrame` | frontend/src/infrastructure/websocket/binance-price-stream.ts:48-62 | unsubscribing from inside a frame's delivery leaves exactly the next frame requested, from inside the fallback timer's delivery or between callbacks none |
| `BinanceRuns.StrayFrameIff` | frontend/src/infrastructure/websocket/binance-price-stream.ts:48-52 | over every run a stopped subscription still has a requested frame if and only if it was cancelled from inside a frame's delivery and that next frame has neither fired nor been cancelled by a second call |
| `BinanceRuns.BatchesAreCoalesced` | frontend/src/infrastructure/websocket/binance-price-stream.ts:37-46 | over every run the flushed trades split into chunks, each delivered as one batch holding the last price of every key, once |
| `BinanceRuns.AttemptCountsFailures` | frontend/src/infrastructure/websocket/binance-price-stream.ts:69-110 | the attempt counter is the number of drops and failed symbol lists since the last open |
| `BinanceRuns.FailureArmsBackoff` | frontend/src/infrastructure/websocket/binance-price-stream.ts:69-110 | a drop or a failed symbol list arms exactly one timer, due after min(30000, 1000 * 2^n) ms for the n failures in a row before it |
| `BinanceRuns.HistoryIsOfEvents` | frontend/src/infrastructure/websocket/binance-price-stream.ts:105-110 | the start of the current failure streak and the clock are determined by the events |
| `BinanceRuns.ReconnectWaits` | frontend/src/infrastructure/websocket/binance-price-stream.ts:105-110 | after n consecutive failures the next attempt starts no sooner after the first of them than the n delays add up to |
| `CompositeFeed.RunProjects` | frontend/src/infrastructure/websocket/composite-price-stream.ts:19-28 | every run of the fan-in is a run of each adapter, so everything proved of one adapter holds within it |
| `CompositeFeed.StepKeepsInv` | frontend/src/infrastructure/websocket/composite-price-stream.ts:19-28 | every event keeps both adapters' invariants and their agreement on hold switch, clock and unsubscription |
| `CompositeFeed.LogIsInterleaving` | frontend/src/infrastructure/websocket/composite-price-stream.ts:22-23 | in every reachable state the subscriber's log is an interleaving of exactly what the two adapters delivered, each in its own order |
| `CompositeFeed.RunKeepsInv` | frontend/src/infrastructure/websocket/composite-price-stream.ts:22-23 | the subscriber's log only grows, by as many batches as the two adapters deliver |
| `CompositeFeed.StoppedIsFinal` | frontend/src/infrastructure/websocket/composite-price-stream.ts:24-26 | once either adapter is stopped both are, and neither opens, arms or delivers anything in any run |
| `CompositeFeed.HeldIsSilent` | frontend/src/infrastructure/websocket/feed-gate.ts:9-20 | while the feed is held the subscriber is given nothing by either source, in any run |
| `CompositeFeed.OtherCurrenciesAreTheBackends` | frontend/src/infrastructure/websocket/composite-price-stream.ts:4-17 | in every interleaving the merged quotes in any currency but USD are exactly the backend's |
| `CompositeFeed.LaterSourceWins` | frontend/src/infrastructure/websocket/composite-price-stream.ts:17 | under every key the merged list shows the last price delivered by either source |
| `CompositeFeed.RunTakes` | frontend/src/infrastructure/websocket/composite-price-stream.ts:22-27 | the fan-in loses nothing: over every run the backend adapter hands over exactly the well-formed frames that arrive while not held, and the exchange adapter takes in every trade |
| `CompositeFeed.ListIsOfFrames` | frontend/src/infrastructure/websocket/composite-price-stream.ts:9-17 | in any currency but USD the list shows the last quote of such a backend frame, or its old entry |
| `Exposition.ParseExposition` | frontend/src/presentation/components/terminal/prometheus.ts:17-36 | the loop over lines computes the parse function |
| `Exposition.ParseOne` | frontend/src/presentation/components/terminal/prometheus.ts:21-33 | one turn skips blank, comment and unmatched lines and pushes one sample otherwise |
| `Exposition.ParseLabels` | frontend/src/presentation/components/terminal/prometheus.ts:25-32 | the loop over the label group fills the labels |
| `Exposition.RoundTrip` | frontend/src/presentation/components/terminal/prometheus.ts:17-36 | parsing a printed document gives back every sample in order with its labels and value, for names of the grammar and label values without comma, closing brace or newline |
| `Exposition.LineRoundTrips` | frontend/src/presentation/components/terminal/prometheus.ts:21-33 | a printed line has no newline and parses to its own sample |
| `Exposition.MeasureMatches` | frontend/src/presentation/components/terminal/prometheus.ts:23 | the line pattern splits a printed measure into its three parts |
| `Exposition.LabelRoundTrips` | frontend/src/presentation/components/terminal/prometheus.ts:27-31 | one rendered label parses back to its key and value, quotes and equals signs inside values included |
| `Exposition.ParsedLabelsArePlain` | frontend/src/presentation/components/terminal/prometheus.ts:27-31 | whatever the text, no parsed label value has a comma, a closing brace or a newline |
| `Exposition.LabelRoundTripIff` | frontend/src/presentation/components/terminal/prometheus.ts:21-33 | a measure with one label comes back exactly when its value has none of the three |
| `ExpositionGrammar.SpaceIsEcma` | frontend/src/presentation/components/terminal/prometheus.ts:21-23 | what `trim` takes off and the pattern takes for white space, by code point |
| `ExpositionGrammar.SampleLineMatches` | frontend/src/presentation/components/terminal/prometheus.ts:23 | a name, perhaps braces without a closing brace inside, white space and a number text are matched, as these parts |
| `ExpositionGrammar.MatchIsSampleLine` | frontend/src/presentation/components/terminal/prometheus.ts:23 | whatever is matched is such a line of the parts found, so the matcher takes exactly the pattern's language and its parts are the only ones |
| `ExpositionGrammar.HeldLineParses` | frontend/src/presentation/components/terminal/prometheus.ts:20-33 | a sample line with white space around it parses to one sample, of its name, its labels and its number |
| `ExpositionGrammar.ParsedLineIsHeld` | frontend/src/presentation/components/terminal/prometheus.ts:20-33 | whatever parses to a sample is a sample line with white space around it; every other text parses to nothing |
| `ExpositionGrammar.PairParses` | frontend/src/presentation/components/terminal/prometheus.ts:28-30 | a label pair sets the key before its first equals sign to the value after it, white space around both taken off |
| `ExpositionGrammar.PairWithoutEquals` | frontend/src/presentation/components/terminal/prometheus.ts:28-29 | a pair without an equals sign sets nothing |
| `ExpositionGrammar.Unquoted` | frontend/src/presentation/components/terminal/prometheus.ts:30 | one quote comes off each end of a value that has one |
| `ExpositionGrammar.PairsOfBraces` | frontend/src/presentation/components/terminal/prometheus.ts:26-31 | the pairs are those between the commas within the braces, and a later one overwrites an earlier |
| `ExpositionGrammar.LiteralReads` | frontend/src/presentation/components/terminal/prometheus.ts:23-33 | a decimal literal, with sign, dot and exponent as the pattern lets them through, reads as its value |
| `ExpositionGrammar.NumberNeeds` | frontend/src/presentation/components/terminal/prometheus.ts:23-33 | whatever reads as a number is such a literal; every other text reads as not a number |
| `ExpositionGrammar.PickFirst` | frontend/src/presentation/components/terminal/prometheus.ts:38-43 | the value of the first sample that has the name and all the labels, and nothing exactly if none has |
| `Metrics.AppMetrics.constructor` | src/infrastructure/metrics.rs:22-34 | all counters start at zero |
| `Metrics.AppMetrics.RecordPollOk` | src/infrastructure/metrics.rs:36-40 | counts the cycle and its rows modulo 2^64 and stores the duration |
| `Metrics.AppMetrics.RecordPollErr` | src/infrastructure/metrics.rs:42-44 | counts the failed cycle and changes nothing else |
| `Metrics.AppMetrics.RecordDiscoveryOk` | src/infrastructure/metrics.rs:46-49 | counts the refresh and stores the number of coins |
| `Metrics.AppMetrics.RecordDiscoveryErr` | src/infrastructure/metrics.rs:51-53 | counts the failed refresh and changes nothing else |
| `Metrics.AppMetrics.IncrHttp` | src/infrastructure/metrics.rs:55-57 | counts the request and changes nothing else |
| `Metrics.AppMetrics.RenderText` | src/infrastructure/metrics.rs:61-98 | appending family after family prints the document of the current counters, whose text `DocumentIsExpected` gives |
| `Metrics.AppMetrics.WriteFamily` | src/infrastructure/metrics.rs:67-95 | appending line after line prints one family: its help, its type, and one sample or one per result |
| `Metrics.FamilyLinesHold` | src/infrastructure/metrics.rs:67-95 | the lines of each family are printable in the format and hold its counters |
| `Metrics.NatRoundTrips` | src/infrastructure/metrics.rs:73-95 | a printed counter is a value of the line pattern and reads back as itself |
| `Metrics.DecimalRoundTrips` | src/infrastructure/metrics.rs:69 | a printed decimal is a value of the line pattern and reads back exactly |
| `Metrics.SecondsAreExact` | src/infrastructure/metrics.rs:63 | the printed seconds are exactly the milliseconds over a thousand |
| `Metrics.DocumentHolds` | src/infrastructure/metrics.rs:67-95 | every line of the document is printable in the format, and its samples are the nine counters |
| `Metrics.MetricsRoundTrip` | src/infrastructure/metrics.rs:61-98 | for all counter values and uptimes the dashboard's parse of the rendering is exactly the nine samples, in order, with the printed values |
| `Metrics.PicksFindTheirCounters` | frontend/src/presentation/components/terminal/prometheus.ts:38-43 | each pick by name and label on the parsed rendering returns its own counter |
| `MetricsText.DocumentIsExpected` | src/infrastructure/metrics.rs:61-98 | the text of the document word for word: the help and type lines of the seven families and their samples with the printed counters, in order |
| `MetricsText.NatIsShortest` | src/infrastructure/metrics.rs:73-74 | a printed counter has no leading zero |
| `MetricsText.SecondsAreShortest` | src/infrastructure/metrics.rs:63-91 | printed seconds have no trailing zero and no dot without digits behind it |
| `RateLimit.RateLimiter.constructor` | src/infrastructure/rate_limit.rs:16-22 | the table starts empty |
| `RateLimit.RateLimiter.Check` | src/infrastructure/rate_limit.rs:25-37 | the answer and the new table entry; the table is always what the run so far determines |
| `RateLimit.OthersDoNotMatter` | src/infrastructure/rate_limit.rs:31-35 | an address's entry depends only on that address's requests |
| `RateLimit.DecisionsAreOwn` | src/infrastructure/rate_limit.rs:24-36 | a decision is the one the address's own requests alone would get |
| `RateLimit.EntryFollows` | src/infrastructure/rate_limit.rs:25-37 | one request, whatever the clock did: it opens a window when its address has none or the last one has passed, else counts, in 32 bits, into the open one; it is admitted when the count is within the maximum, or always for a maximum of 0; no other address is touched |
| `RateLimit.FewRequestsAreEnough` | src/infrastructure/rate_limit.rs:35 | no counter wraps if no stretch of one window's length holds 2^32 requests of the address |
| `RateLimit.CounterCounts` | src/infrastructure/rate_limit.rs:31-35 | without overflow the counter is the number of requests in the current window |
| `RateLimit.RefusedIffWindowFull` | src/infrastructure/rate_limit.rs:31-36 | a request is refused exactly when the window it falls into has already admitted the maximum |
| `RateLimit.RunBound` | src/infrastructure/rate_limit.rs:25-37 | admissions since any time stay within the budget of the current window |
| `RateLimit.IntervalBound` | src/infrastructure/rate_limit.rs:6-37 | in any closed interval of length L an address is admitted at most max * (L / p + 1) times when p divides L, else at most max * (L / p + 2) - 1 times, with p one tick more than the window and / rounding down |
| `RateLimit.BoundIsReached` | src/infrastructure/rate_limit.rs:25-37 | for every maximum, window and length some run reaches that bound |
| `RateLimit.OneWindowBound` | src/infrastructure/rate_limit.rs:6-37 | fewer than twice the maximum in any interval of one window |
| `RateLimit.KeepsItsNameUnwrappedIff` | src/infrastructure/rate_limit.rs:16-37 | all runs without a wrapping counter stay within the maximum in every interval of one window if and only if the maximum is 1 (or the window has no length) |
| `RateLimit.NameIsNotKept` | src/infrastructure/rate_limit.rs:16-37 | counting the runs that wrap the counter, that is so for no maximum of at least 1: a burst of 2^32 requests breaks it |
| `RateLimit.WindowsKeepTheMaximumIff` | src/infrastructure/rate_limit.rs:31-36 | for every run in time order, every window that the limiter opens admits at most the maximum, at all times, if and only if no counter wraps |
| `RateLimit.BurstIsBoundedIff` | src/infrastructure/rate_limit.rs:35-36 | requests of one instant stay within the maximum if and only if there are fewer than 2^32 of them: the request that wraps the counter is admitted again |
| `Pipeline.Repository.SavePrices` | src/infrastructure/persistence/postgres.rs:87-109 | the loop of inserts in one transaction: all rows or none, whichever round trip fails |
| `Pipeline.Execute` | src/application/use_cases.rs:30-36 | a cycle returns what was fetched, and has saved all of it, exactly when the provider answered and no round trip to the database failed; else it has saved nothing |
| `Pipeline.RunPollingLoop` | src/infrastructure/scheduler.rs:12-51 | over a whole life of the loop the rows saved, the batches broadcast and the counters agree with the successful ticks, and nothing else is touched |
| `Pipeline.BatchesAreFetched` | src/application/use_cases.rs:30-36 | the batches of a list of ticks are what its successful ticks fetched, all of them and in order, and the duration kept is that of the last one |
| `Pipeline.Forward` | src/presentation/websocket.rs:28-40 | what a client's loop sends is the log from its subscription on without a gap, and it ends at the first lag or failed send |
| `PipelineRuns.LoopKeepsInv` | src/infrastructure/scheduler.rs:23-42 | every step of a cycle keeps the ledger of table, counters and channel |
| `PipelineRuns.ClientKeepsInv` | src/presentation/websocket.rs:28-40 | every step of a forwarding task keeps: sent, then held, is exactly the log up to the receiver's position |
| `PipelineRuns.StepKeepsInv` | src/presentation/websocket.rs:21-56 | both hold through every interleaving of loop, subscriptions, receives, lags, sends and disconnections |
| `PipelineRuns.DeliveryIsGapFree` | src/presentation/websocket.rs:20-40 | over every run each client is sent a contiguous stretch of the committed batches, in order, from its subscription on; a caught-up client has been sent everything since |
| `PipelineRuns.EndedIff` | src/presentation/websocket.rs:28-56 | over every run a client's loop has ended if and only if a receive lagged, a send failed, or it left |
| `PipelineRuns.ClientEnds` | src/presentation/websocket.rs:28-40 | a receive lags exactly when the channel is more than 16 batches ahead |
| `PipelineRuns.HeadsBalance` | src/infrastructure/scheduler.rs:23-42 | over every run, at each loop head, the rows committed equal prices_written and the batches committed are the batches broadcast; ok plus error equals the completed cycles (modulo 2^64) |
| `PipelineRuns.OneBatchAhead` | src/infrastructure/scheduler.rs:27-40 | between heads the table is at most one batch ahead of the counters and the channel, in that order |
| `PipelineRuns.ClientsDoNotMatter` | src/infrastructure/scheduler.rs:11-42 | however clients come, lag and go, the loop saves, counts and broadcasts what its ticks alone decide, as the sequential loop does |
| `PipelineRuns.CycleTakesTick` | src/infrastructure/scheduler.rs:25-42 | the steps of one cycle commit and count exactly the tick's batch |

## Left out

- Rounding, NaN and overflow of IEEE doubles: all statements about measurements are about exact arithmetic.
- Indicators.Rsi: does not model the property at a negative index that the source writes for a negative period; periods are whole.
- Indicators.Bollinger: does not model the negative array properties that the source writes for a non-positive period.
- Volatility and total return (frontend/src/domain/indicators.ts:80-98): plain expressions over a series.
- Treemap.SquarifyTilesContainer: assumes non-negative weights, which the caller filters for; `AreasFillContainerIff` says why.
- CandleBatches.MatchesQueryIff: groups by bucket start as `Math.floor` computes it; the query's `date_trunc` agrees with it for minutes and hours of UTC.
- LiveCandles.Hook.Render: one React commit is one atomic step; rendering itself is not part of this model.
- PriceMap.LivePrices.OnSnapshot: the request behind the snapshot is not modelled, only its two outcomes.
- BinanceRuns.CoalescedRunIsTransparent: is about a subscriber of this one adapter; through the fan-in both adapters write the USD keys, and there `CompositeFeed.LaterSourceWins` holds instead.
- BinanceFeed.StreamsSplitIff: upper and lower case are those of ASCII letters.
- BinanceRuns.TradeIsBuffered: a frame without a trade time, which the source stamps with the clock, carries that stamp as its time.
- Exceptions of the WebSocket constructor and of a subscriber, and the decoding of JSON frames: a frame arrives as a parsed batch, a trade or something else.
- The listeners of the hold switch (frontend/src/infrastructure/websocket/feed-gate.ts:16-25), which nothing in the repository registers.
- Exposition.ParseExposition: an object key such as `__proto__` is an ordinary key of the label map; numbers are read exactly.
- Metrics.AppMetrics.RenderText: reads all counters at one instant and prints the uptime as a given decimal; relaxed atomics read one by one may mix instants.
- RateLimit.RateLimiter.Check: calls are serialised; the source reads the clock before it takes the lock.
- RateLimit.IntervalBound: assumes that no window the limiter opens for the address holds 2^32 requests (`FewRequestsAreEnough` gives a condition on the requests alone); there the counter wraps in a release build and overflows with a panic in a debug build.
- CoalescedCandles.CoalescedChart: takes the coin's texts to be finite numbers in time order, and no other adapter's prices in between.
- Pipeline.Repository.SavePrices: a commit that reports an error has not happened; a lost acknowledgement is not modelled.
- Pipeline.Forward: the conversion to JSON is total and does not change the batch.
- PipelineRuns.HeadsBalance: holds at loop heads; aborting the loop in the middle of a cycle at shutdown is not modelled.
- The provider's retries, coin discovery, symbol mapping, authentication, HTTP routing, configuration, number formatting and all rendering: foreign code or correct by reading a branch or two.
