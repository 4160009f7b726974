# Gold/silver dashboard: technical-indicator core in Dafny

This project models the computational core of a gold and silver market dashboard:

- **Technical indicators**, computed over a series of closing prices:
  - simple and exponential moving averages;
  - the Wilder-smoothed RSI;
  - MACD, with its signal line, histogram and trend label;
  - rate-of-change momentum;
  - Bollinger bands.
- **The aggregation layer**, which runs them all with fixed periods and adds the running-peak maximum drawdown and the 30-bar annualised volatility.
- **The page derivations**:
  - moving-average signals, period returns and the gold/silver ratio series;
  - the 50/200 SMA overlay guard;
  - the overall moving-average verdict.
- **The card rules**: the ratio context, the RSI/MACD/momentum/volatility badges and the gold-versus-silver highlight.
- **Two small state machines**: the TTL response cache and the live-price store.
- **Utility rules**: troy-ounce conversions, forex market hours and chart stale times.

Modelling choices:

- Prices are exact `real` numbers, and closes are `seq<real>`.
- An output point is `Point(bar, value)`. It carries the index of the bar it belongs to rather than a formatted time string.
- Every indicator is a pure function. Its contract, or a lemma about it named in the table below, states the output's length, its index alignment, its short-series defaults and its pointwise meaning. The exact length of the momentum line is in `Momentum.MomentumLength`, and the value of each log return in `Indicators.LogReturnsValues`.
- `Math.sqrt` and `Math.log` are function-valued parameters (`sqrt`, `ln`). Where a property needs the square root's meaning, the lemma assumes `IsSqrt(sqrt)`: for every `x >= 0`, `sqrt(x) >= 0` and `sqrt(x) * sqrt(x) == x`.
- The clock (`Date.now()`, `new Date()`) is an explicit argument: `now` in milliseconds, or the UTC day and hour.
- The cache and the price store are immutable values with transition functions.

The files:

| file | module | content |
|---|---|---|
| series.dfy | Series | points, `Option`, sums, mean, population variance, min/max, helpers |
| constants.dfy | Constants | periods, thresholds, troy-ounce factor, cache durations |
| sma.dfy | Sma | `computeSMA` |
| ema.dfy | Ema | `computeEMA` and the seed-then-recurrence series shared with MACD |
| rsi.dfy | Rsi | `computeRSI` |
| macd.dfy | Macd | `emaFromCloses`, `computeMACD` |
| momentum.dfy | Momentum | `computeMomentum` |
| bollinger.dfy | Bollinger | `computeBollinger` |
| indicators.dfy | Indicators | `useTechnicalIndicators`: periods, max drawdown, volatility guard |
| page.dfy | Page | `maSignals`, `calcReturn`, `ratioData`, `maOverlays` |
| ma_table.dfy | MaTable | `getOverallSignal` |
| dashboard.dfy | Dashboard | `getRatioContext`, card badges, `MetricCard` highlight |
| cache.dfy | Cache | `getCached`, `setCache` |
| price_store.dfy | PriceStore | `updateGold`, `updateSilver`, `setConnected`, `setCurrency` |
| utils.dfy | Utils | `priceToGrams`, `priceToKg`, `isMarketOpen`, `getTimeframeStaleTime` |

## Model

| member | source | states |
|---|---|---|
| Sma.Sma | lib/indicators/sma.ts:3-22 | One point per full window. There are `n - p + 1` points when `n >= p` and none otherwise. Point `k` is stamped at bar `k + p - 1` and is the mean of `closes[k..k+p]`. `currentValue` is the last value, or 0 when there are no values. |
| Sma.SmaFrom | lib/indicators/sma.ts:6-15 | The outer loop from window end `i` emits `n - i` points. Each is stamped at its window end and holds the mean of its window. |
| Sma.SmaWithinWindowRange | lib/indicators/sma.ts:8-13 | Every average lies between the minimum and the maximum close of its window. |
| Sma.SmaOfConstant | lib/indicators/sma.ts:8-20 | Constant closes `c` give `c` at every point and as the current value. |
| Sma.SmaTenToTwenty | lib/indicators/sma.ts:6-20 | Closes 10..20 with period 5 give 7 points: the first is 12 at bar 4, the last and current value is 18 at bar 10. |
| Ema.Multiplier | lib/indicators/ema.ts:5 | The smoothing factor `2 / (p + 1)` lies in (0, 1] for `p >= 1`. |
| Ema.Update | lib/indicators/ema.ts:23-24 | One step `(x - e) * 2/(p+1) + e` lands between the previous value and the input, and with period 1 it is the input. |
| Ema.Scaled | lib/indicators/ema.ts:24 | The difference `x - e` times a multiplier in (0, 1] lies between 0 and the difference, on whichever side the difference is. |
| Ema.EmaSeries | lib/indicators/ema.ts:11-29 | Empty for fewer than `p` values. Otherwise it has `n - p + 1` values, starts at the mean of the first `p`, and every later value is the update of its predecessor by the next input. |
| Ema.EmaExtend | lib/indicators/ema.ts:23-29 | The recurrence loop extends a prefix that follows the recurrence to a full-length series that still follows it, and keeps the prefix unchanged. |
| Ema.Ema | lib/indicators/ema.ts:3-36 | Fewer closes than the period give an empty result with current value 0 and the period echoed. Otherwise there are `n - p + 1` points stamped from bar `p - 1`, the first is the mean of the first `p` closes, and the current value is the last value. |
| Ema.EmaRecurrence | lib/indicators/ema.ts:23-24 | Each later point is `(close - prev) * 2/(p+1) + prev` with the close of its own bar. |
| Ema.EmaSeedIsFirstSma | lib/indicators/ema.ts:11-21 | The first EMA point equals the first SMA point of the same period, bar and value. |
| Ema.EmaWithinSeenRange | lib/indicators/ema.ts:16-24 | Every EMA value lies within any bounds that hold for all the inputs seen up to its bar. |
| Ema.EmaPeriodOneIsIdentity | lib/indicators/ema.ts:5-24 | With period 1 the EMA series reproduces its input exactly. |
| Rsi.Changes | lib/indicators/rsi.ts:12-15 | There are `n - 1` close-to-close changes, and change `i` added to close `i` gives close `i + 1`. |
| Rsi.GainLossSplit | lib/indicators/rsi.ts:19-24 | A change is its gain minus its loss magnitude, and at most one of the two is non-zero. A zero change counts as a zero gain. |
| Rsi.SeedAverages | lib/indicators/rsi.ts:17-27 | The seed averages are non-negative, and times the period they give back the gain and loss sums over the first `p` changes. |
| Rsi.WilderStep | lib/indicators/rsi.ts:43-44 | The new average times the period is the old average times `p - 1` plus the new gain (or loss). |
| Rsi.WilderExtend | lib/indicators/rsi.ts:39-53 | The smoothing loop extends a prefix that follows the Wilder recurrence to `n - p + 1` averages that still follow it, keeping the prefix. |
| Rsi.AverageSeries | lib/indicators/rsi.ts:17-44 | The seed averages over the first `p` changes, then one Wilder step `(avg*(p-1) + x)/p` per further change: `n - p + 1` entries in all. |
| Rsi.AveragesNonNegative | lib/indicators/rsi.ts:26-27 | The average gain and the average loss stay non-negative through every Wilder update (lines 43-44 as well). |
| Rsi.RsiOf | lib/indicators/rsi.ts:30-31 | `100 - 100/(1 + RS)`, with `RS := 100` when the average loss is 0, lies in [0, 100). |
| Rsi.Rsi | lib/indicators/rsi.ts:4-64 | Fewer than `p + 1` closes give no values, current value 50 and no flags. Otherwise there are `n - p` values with point `k` at bar `p + k`, all in [0, 100). `isOverbought` holds iff the current value is >= 70, `isOversold` iff it is <= 30, and never both. |
| Rsi.RsiValueFromAverages | lib/indicators/rsi.ts:29-53 | Point `k` is `RsiOf` of the `k`-th averages. |
| Rsi.RsiNoLossInSeed | lib/indicators/rsi.ts:17-31 | Without a falling close in the seed the average loss is 0 and the first value is `100 - 100/101`. |
| Rsi.RsiOfConstant | lib/indicators/rsi.ts:39-62 | Constant closes give `100 - 100/101` at every point, so the series reads overbought. |
| Macd.EmaFromCloses | lib/indicators/macd.ts:3-24 | Empty for fewer closes than the period. Otherwise it is full length, with 0 placeholders before index `p - 1`, the mean of the first `p` closes at `p - 1`, and the EMA series from there on. |
| Macd.MacdValues | lib/indicators/macd.ts:52-56 | There are `n - slow + 1` MACD values. Value `k` is the fast EMA minus the slow EMA at the same bar. |
| Macd.MacdValuesFromAlignedEmas | lib/indicators/macd.ts:53-56 | MACD value `k` is `fastEma[slow-1+k] - slowEma[slow-1+k]` read off the placeholder-padded arrays. |
| Macd.TrendOf | lib/indicators/macd.ts:94-102 | The four-branch label reduces to the last step: bullish iff `curr > prev`, bearish iff `curr < prev`, neutral iff they are equal. |
| Macd.HistogramTrend | lib/indicators/macd.ts:94-102 | Neutral with fewer than two histogram points. Otherwise the label follows the direction of the last histogram step. |
| Macd.MacdLines | lib/indicators/macd.ts:58-92 | Three lines of equal length, `signal - 1` shorter than the MACD values, with point `i` stamped at `start + i`. The MACD line takes the values from the signal seed index on, the signal line is their EMA, and `histogram[i] = macd[i] - signal[i]`. The currents are the last points, and the label is `HistogramTrend` of the histogram. |
| Macd.SignalRecurrence | lib/indicators/macd.ts:70-73 | Each later signal point is the previous signal point moved towards the MACD point of the same bar by `2/(signal+1)`. |
| Macd.Macd | lib/indicators/macd.ts:26-113 | Fewer than `slow + signal` closes give empty lines, currents 0 and a neutral label. Otherwise there are three lines of length `n - slow - signal + 2` starting at bar `slow + signal - 2`, with currents from the last points. |
| Macd.MacdNeutralOnlyWhenFlat | lib/indicators/macd.ts:94-102 | Past the early return the histogram has at least two points, so the label is neutral exactly when the last step is flat. |
| Momentum.RocInverse | lib/indicators/momentum.ts:14 | Applying the rate of change to its base gives the later close back. |
| Momentum.RocSign | lib/indicators/momentum.ts:14 | Against a positive base the rate of change is positive, negative or zero exactly when the close rose, fell or stayed. |
| Momentum.Roc | lib/indicators/momentum.ts:14 | The rate of change is 0 exactly when the close equals the base, and its sign follows the direction of the move (reversed against a negative base). |
| Momentum.MomentumFrom | lib/indicators/momentum.ts:10-19 | The loop from bar `i` emits points only for bars in `[i, n)` with a non-zero earlier close. Each value is the rate of change against that close, and the bars strictly increase. |
| Momentum.MomentumFromBars | lib/indicators/momentum.ts:11-12 | Bar `j` gets a point iff `closes[j - p] != 0`. |
| Momentum.MomentumFromCount | lib/indicators/momentum.ts:10-19 | The loop emits exactly one point per non-zero earlier close. |
| Momentum.Momentum | lib/indicators/momentum.ts:7-22 | Empty when `n <= p`. Every point is at a bar in `[p, n)` with a non-zero base, holds `(close - base)/base * 100`, and the bars strictly increase. |
| Momentum.MomentumBars | lib/indicators/momentum.ts:10-12 | A bar from `p` on is present iff its earlier close is non-zero. |
| Momentum.MomentumEndsAtLastBar | lib/indicators/momentum.ts:10-19 | With a non-zero base for the last bar, the line ends at the last bar. |
| Momentum.MomentumLength | lib/indicators/momentum.ts:10-19 | At most `n - p` points, with exactly `n - p` iff none of `closes[0..n-p)` is 0. |
| Momentum.MomentumOfPositiveCloses | lib/indicators/momentum.ts:10-19 | With positive closes no bar is skipped, and each value is positive iff the close rose over the period. |
| Bollinger.Bollinger | lib/indicators/bollinger.ts:3-47 | Fewer closes than the period give empty bands and bandwidth 0. Otherwise there are three bands of length `n - p + 1` at bars `k + p - 1`: the window mean, and the mean plus and minus `stdDev` times the population standard deviation. The bandwidth comes from the last points. |
| Bollinger.Deviation | lib/indicators/bollinger.ts:25-29 | With a true square root the window deviation is non-negative and its square is the window's population variance. |
| Bollinger.Bandwidth | lib/indicators/bollinger.ts:40-44 | The bandwidth is 0 when the middle value is 0; otherwise bandwidth times middle equals upper minus lower. |
| Bollinger.MiddleIsSma | lib/indicators/bollinger.ts:17-22 | The middle band is the SMA line of the same period. |
| Bollinger.BandsSymmetric | lib/indicators/bollinger.ts:32-33 | `upper - middle == middle - lower` at every point. |
| Bollinger.WindowHalfWidth | lib/indicators/bollinger.ts:24-33 | With a true square root and `stdDev >= 0`, the half-width is non-negative and its square is `stdDev^2` times the window's population variance. |
| Bollinger.BandsOrdered | lib/indicators/bollinger.ts:29-33 | With a true square root and `stdDev >= 0`, lower <= middle <= upper. |
| Bollinger.ConstantWindowCollapses | lib/indicators/bollinger.ts:24-33 | A constant window makes all three bands equal to the constant. |
| Bollinger.ConstantClosesZeroBandwidth | lib/indicators/bollinger.ts:40-44 | Constant closes give bandwidth 0. |
| Indicators.Peak | hooks/use-technical-indicators.ts:59-61 | The running peak is non-negative, bounds every close seen, and is 0 or one of the closes. |
| Indicators.MaxDrawdown | hooks/use-technical-indicators.ts:57-64 | The largest drawdown is never negative. |
| Indicators.MaxDrawdownBounds | hooks/use-technical-indicators.ts:57-64 | It bounds the drawdown `(peak_i - close_i)/peak_i` at every bar. |
| Indicators.MaxDrawdownAttained | hooks/use-technical-indicators.ts:57-64 | A positive maximum drawdown is the drawdown at some bar, so it is exactly the maximum over the bars. |
| Indicators.ComputeMaxDrawdown | hooks/use-technical-indicators.ts:58-64 | The single pass keeping a running peak and the largest drawdown computes `MaxDrawdown`. |
| Indicators.MaxDrawdownBelowOne | hooks/use-technical-indicators.ts:58-64 | With all closes positive the maximum drawdown is below 1. |
| Indicators.NonDecreasingNoDrawdown | hooks/use-technical-indicators.ts:58-64 | Closes that never fall give maximum drawdown 0. |
| Indicators.SingleBarNoDrawdown | hooks/use-technical-indicators.ts:58-64 | A single bar gives maximum drawdown 0. |
| Indicators.MaxDrawdownMonotone | hooks/use-technical-indicators.ts:58-64 | Appending a bar never lowers the maximum drawdown. |
| Indicators.Recent30 | hooks/use-technical-indicators.ts:67 | `slice(-30)`: the last `min(n, 30)` closes. |
| Indicators.LogReturnsFrom | hooks/use-technical-indicators.ts:70-75 | One log return per bar whose previous close is positive: as many as there are positive closes before the last. |
| Indicators.ReturnBars | hooks/use-technical-indicators.ts:71-72 | The bars that contribute a return: as many as the positive previous closes, each in range with a positive previous close. |
| Indicators.ReturnBarsComplete | hooks/use-technical-indicators.ts:71-72 | Those bars are strictly increasing and include every bar whose previous close is positive, so they are exactly the loop's pushing iterations in order. |
| Indicators.ReturnsAt | hooks/use-technical-indicators.ts:73 | The return of bar `j` is `ln(recent[j] / recent[j - 1])`, one per bar, in order. |
| Indicators.LogReturnsValues | hooks/use-technical-indicators.ts:70-75 | The log returns are exactly the returns at the return bars: return `k` is `ln(recent[j] / recent[j - 1])` for the `k`-th bar `j` with a positive previous close. |
| Indicators.PositiveCount | hooks/use-technical-indicators.ts:72 | The count is 0 exactly when no element is positive. |
| Indicators.Volatility30d | hooks/use-technical-indicators.ts:66-81 | 0 when the trailing 30 bars hold fewer than two bars or no positive previous close. Otherwise it is `sqrt(variance of the log returns) * sqrt(252)` over a non-empty return list. |
| Indicators.VolatilityNonNegative | hooks/use-technical-indicators.ts:76-80 | With a true square root the volatility is never negative. |
| Indicators.TechnicalIndicatorsOf | hooks/use-technical-indicators.ts:44-97 | Missing or empty data gives nothing. Otherwise the result is `Aggregate` of the closes: the SMA and EMA entries follow the fixed period lists in order, RSI uses period 14, and the risk fields are the maximum drawdown and the volatility. |
| Indicators.Aggregate | hooks/use-technical-indicators.ts:48-53 | Entry `k` of the SMA list is the SMA of the closes with the `k`-th standard period, and likewise for the EMA list. RSI, MACD, Bollinger and momentum are those indicators with the fixed parameters 14, 12/26/9, 20/2 and 10, and the risk record holds the maximum drawdown and the volatility. |
| Indicators.AggregatePeriods | hooks/use-technical-indicators.ts:48-49 | The SMA entries have periods 20, 50, 100, 200 and the EMA entries 12, 26. |
| Page.SignalOf | app/page.tsx:112-118 | Above iff the latest close is >= the MA. For a positive MA, `percentDiff >= 0` iff Above, and `MA + MA * percentDiff/100` gives the close back. |
| Page.SignalsOf | app/page.tsx:110-119 | Only SMA entries with a standard period and a positive current value are kept. When all are kept the rows are the per-entry signals in order; when none are, there are no rows. |
| Page.SignalsOfAppend | app/page.tsx:110-119 | Filtering and mapping distribute over concatenation, so the rows keep their SMAs' relative order. |
| Page.SignalsOfSingle | app/page.tsx:110-119 | A single SMA yields its row iff it has a standard period and a positive current value; with the append lemma this determines the rows for every list. |
| Page.MaSignals | app/page.tsx:107-120 | No rows without indicators or bars. Otherwise the rows are the signals against the last close. |
| Page.CalcReturn | app/page.tsx:142-147 | 0 with fewer than `periods + 1` bars or a non-positive start. Otherwise the rate of change from bar `n - 1 - periods` to the last bar. |
| Page.CalcReturnIsLatestMomentum | app/page.tsx:142-147 | With a positive start the period return is the last point of the momentum line with the same period, at the last bar. |
| Page.RatioData | app/page.tsx:96-104 | Nothing unless both series exist. Otherwise `min` of the two lengths, with point `i` at bar `i`: gold over silver (value times silver equals gold) when the silver close is positive, else 0. |
| Page.MaOverlays | app/page.tsx:54-71 | Overlays exist iff toggled on with at least 200 bars. They are then the SMA-50 and SMA-200 lines, of lengths `n - 49` and `n - 199`. |
| MaTable.Classify | components/analysis/moving-averages-table.tsx:17-25 | No rows is neutral. Otherwise each verdict holds exactly when `above/total` lies in its band, with cuts 0.9, 0.6, 0.4 and 0.1 stated in integers. |
| MaTable.AboveCount | components/analysis/moving-averages-table.tsx:16 | The count is at most the number of rows. It is 0 exactly when no row is above, and it equals the number of rows exactly when every row is above. |
| MaTable.OverallSignalOf | components/analysis/moving-averages-table.tsx:15-26 | No rows is neutral. Otherwise the five verdicts hold exactly when the count of rows above, against the total, lies at or above 9/10, in [6/10, 9/10), [4/10, 6/10), [1/10, 4/10) or below 1/10. All rows above is strong bullish, and none above is strong bearish. |
| MaTable.AboveCountAppend | components/analysis/moving-averages-table.tsx:16 | The above count splits over concatenation. |
| MaTable.AboveCountPermutation | components/analysis/moving-averages-table.tsx:16 | The above count depends only on the multiset of rows. |
| MaTable.OverallSignalPermutation | components/analysis/moving-averages-table.tsx:15-20 | Reordering the rows does not change the verdict. |
| MaTable.ClassifyMonotone | components/analysis/moving-averages-table.tsx:20-25 | For a fixed total, more rows above never give a more bearish verdict. |
| MaTable.ClassifyOutOfFour | components/analysis/moving-averages-table.tsx:20-25 | Out of four rows, 4, 3, 2, 1 and 0 above give strong bullish, bullish, neutral, bearish and strong bearish. |
| Dashboard.RatioContextOf | components/charts/ratio-chart.tsx:25-32 | Each class holds exactly when the distance from the average lies in its band: > 15, (5, 15], [-5, 5], [-15, -5), < -15. |
| Dashboard.RatioAtAverageIsNear | components/charts/ratio-chart.tsx:26-31 | A ratio equal to its average is near it. |
| Dashboard.RatioContextBoundaries | components/charts/ratio-chart.tsx:27-30 | Exactly +15% is above, exactly ±5% is near, exactly -15% is below. |
| Dashboard.RatioContextMonotone | components/charts/ratio-chart.tsx:26-31 | Against a positive average a higher ratio never gives a lower class. |
| Dashboard.RsiBadgeOf | components/analysis/ta-dashboard.tsx:75-76 | Overbought iff the flag is set (it wins). Oversold iff only the oversold flag is set. Neutral otherwise. Red goes with overbought and green with oversold. |
| Dashboard.RsiBadgeOfRsi | components/analysis/ta-dashboard.tsx:75-76 | On an RSI result the badge follows the current value against 70 and 30. |
| Dashboard.ConstantClosesOverbought | components/analysis/ta-dashboard.tsx:75 | Constant closes show the overbought badge. |
| Dashboard.MacdColor | components/analysis/ta-dashboard.tsx:96 | Green iff bullish, red iff bearish, neutral iff neutral. |
| Dashboard.MacdColorOfHistogram | components/analysis/ta-dashboard.tsx:96 | Green iff the last histogram step rises, red iff it falls. |
| Dashboard.CurrentMomentum | components/analysis/ta-dashboard.tsx:116 | The last momentum value, or 0 for an empty line. |
| Dashboard.MomentumBadgeOf | components/analysis/ta-dashboard.tsx:116-118 | Positive iff the current value is > 0, negative iff < 0, flat iff 0, with matching colours. |
| Dashboard.MomentumBadgeOfPositiveCloses | components/analysis/ta-dashboard.tsx:116-118 | With positive closes the badge reports the direction of the move over the last period. |
| Dashboard.VolatilityBadgeOf | components/analysis/ta-dashboard.tsx:135-137 | High iff > 30, moderate iff in (15, 30], low iff <= 15, with red for high and green for low. |
| Dashboard.VolatilityBadgeOfFraction | components/analysis/ta-dashboard.tsx:135-137 | On the fraction the page passes times 100: high iff > 0.3, low iff <= 0.15. |
| Dashboard.VolatilityBadgeMonotone | components/analysis/ta-dashboard.tsx:136 | A higher volatility never lowers the badge. |
| Dashboard.HighlightOf | components/analysis/risk-metrics.tsx:32-33 | Gold is better iff strictly better in the metric's direction; silver likewise. |
| Dashboard.HighlightExclusive | components/analysis/risk-metrics.tsx:32-33 | Never both; equal values highlight neither; unequal values highlight exactly one. |
| Dashboard.HighlightFlip | components/analysis/risk-metrics.tsx:32-33 | For unequal values, flipping `higherIsBetter` swaps the highlighted side. |
| Dashboard.HighlightSwap | components/analysis/risk-metrics.tsx:32-33 | Exchanging the two metals' values swaps the highlighted side. |
| Cache.Get | lib/cache.ts:3-10 | A value comes back iff the key is present and `now <= expires`, and then it is the stored value with the store unchanged. Otherwise the key is removed. Other keys are untouched. |
| Cache.Set | lib/cache.ts:12-14 | The key maps to the data with expiry `now + ttl`, and other keys are untouched. |
| Cache.SetThenGet | lib/cache.ts:5-13 | A read up to `t + ttl` after a write at `t` returns the written value. |
| Cache.GetAfterExpiry | lib/cache.ts:5-7 | A read after the expiry returns nothing and removes the entry. |
| Cache.GetMissing | lib/cache.ts:4-7 | A never-stored key reads as nothing and leaves the store unchanged. |
| Cache.SetReplaces | lib/cache.ts:13 | A second write to a key replaces both the value and the expiry. |
| Cache.OtherKeysUnaffected | lib/cache.ts:6-13 | Reads and writes of one key do not change what another key reads. |
| Cache.GetIdempotent | lib/cache.ts:3-10 | Reading twice at the same time gives the same answer and store. |
| Cache.ExpiryIsPermanent | lib/cache.ts:5 | Once an entry has expired, every later read without a write misses. |
| PriceStore.Apply | stores/price-store.ts:16 | Object spread: each supplied field replaces the old one and every other field is kept. |
| PriceStore.ApplyCombine | stores/price-store.ts:15-16 | Two successive partial updates equal one update with the later fields winning. |
| PriceStore.ApplyIdentityAndIdempotent | stores/price-store.ts:15-16 | An empty update changes nothing, and repeating an update changes nothing more. |
| PriceStore.Fresh | stores/price-store.ts:17-27 | The default quote: the given symbol, every number 0, stamped `now`. |
| PriceStore.Merge | stores/price-store.ts:15-28 | An existing quote takes the supplied fields over its own. Without one, each field is the supplied value or else the default: the symbol, 0, or `now` for the timestamp. |
| PriceStore.RatioAfter | stores/price-store.ts:30 | With both quotes present at non-zero prices the ratio times the silver price is the gold price. Otherwise the previous ratio is kept. |
| PriceStore.UpdateGold | stores/price-store.ts:13-32 | The gold quote becomes the merged or defaulted quote (XAU/USD) and the ratio follows the ratio rule. Silver, the connection flag and the currency are unchanged. |
| PriceStore.UpdateSilver | stores/price-store.ts:34-53 | The mirror image for silver (XAG/USD) with the same ratio rule. Gold, the connection flag and the currency are unchanged. |
| PriceStore.SetConnected | stores/price-store.ts:55 | Only the connection flag changes. |
| PriceStore.SetCurrency | stores/price-store.ts:11 | Only the currency changes. |
| PriceStore.TransitionsKeepRatioConsistent | stores/price-store.ts:4-56 | Whenever both prices are non-zero the ratio is gold over silver. This holds initially, both updates establish it, and the two setters preserve it. |
| PriceStore.FirstGoldUpdate | stores/price-store.ts:17-28 | A first gold update starts from the XAU/USD defaults stamped `now`, and the supplied fields win. |
| PriceStore.RatioKeptWithoutBothPrices | stores/price-store.ts:30 | Without a non-zero silver price a gold update keeps the previous ratio. |
| PriceStore.GoldThenSilverRatio | stores/price-store.ts:30-51 | Gold then silver updates with non-zero prices give the ratio of the two. |
| Utils.PriceToGrams | lib/utils.ts:26-28 | The gram price times 31.1035 is the ounce price. |
| Utils.PriceToKg | lib/utils.ts:30-32 | The kilogram price times 31.1035 is 1000 times the ounce price. |
| Utils.KgIsThousandGrams | lib/utils.ts:26-32 | The kilogram price is 1000 times the gram price. |
| Utils.ConversionsOrder | lib/utils.ts:26-32 | Both conversions are 0 exactly at 0, keep the sign, and are strictly increasing. |
| Utils.IsMarketOpen | lib/utils.ts:34-45 | Closed exactly all Saturday, on Sunday before 22:00 UTC, and on Friday from 22:00 UTC. |
| Utils.MarketOpenWindow | lib/utils.ts:39-44 | Counted in hours from Sunday 00:00, open exactly on `[22, 142)`, which is 120 hours a week. |
| Utils.OpenMondayToThursday | lib/utils.ts:39-44 | Every hour from Monday to Thursday is open. |
| Utils.StaleTime | lib/utils.ts:64-69 | 300000 ms (five minutes) exactly for the intervals 1min, 5min and 15min; 3600000 ms (one hour) for every other interval. |

## Left out

- Sharpe and Sortino ratios (lib/indicators/sharpe.ts, lib/indicators/sortino.ts) and their fields in the risk record: they are floating-point log/sqrt computations with no exact counterpart. `RiskMetrics` keeps `maxDrawdown` and `volatility30d` only.
- Indicators.LogReturnsFrom: its own contract states only the number of returns. The value of each return is stated by the lemma `Indicators.LogReturnsValues`, which keeps the pointwise quantifier out of the verification of every caller.
- Indicators.Volatility30d: `Math.log` and `Math.sqrt` are uninterpreted parameters. Only the guards, the return count and non-negativity (given a true square root) are proved, and nothing about the numeric value.
- `volatilityLineData` and `calcYtdReturn` in app/page.tsx: both depend on `Math.log` or on the current date.
- Time labels (`toISOString().slice(...)`) and all string formatting (`toFixed`, `formatPrice`, `formatPercent`, `toLocaleString`): points carry the bar index instead.
- Market-data adapters, API route handlers, websocket and fetch hooks, mock data, and all rendering: these are I/O, timers or UI.
- Floating-point artefacts (NaN, Infinity, rounding): every quantity is an exact real. The implicit assumptions of the code become preconditions: period >= 1, `1 <= fast <= slow`, `signal >= 1`, and a non-zero historical average in the ratio context. In particular the cuts of `getOverallSignal` compare the exact quotient `above/total`.
- MACD trend label: the label follows the code, which reduces to the sign of the last histogram step. It does not carry the earlier direction over.
- `Currency` is imported from lib/types.ts (stores/price-store.ts:2), but lib/types.ts does not define it, so the store's currency is a string. Its `'USD'` default (stores/price-store.ts:9) is modelled.
- PriceStore.Apply: a field supplied explicitly as `undefined` in a JavaScript partial update would overwrite the old value with `undefined`. The model treats an absent field and an `undefined` one alike, as not supplied.
- Utils.IsMarketOpen: the UTC day and hour are arguments in `0..6` and `0..23` rather than readings of the clock.
- Cache.Get: the module-level mutable map becomes a value passed in and returned, and `Date.now()` is the argument `now`.
