/** Technical-analysis defaults, unit factors and cache durations of the dashboard. */
module Constants {

  /** Periods of the simple moving averages the aggregator computes, in order. */
  const SmaPeriods: seq<nat> := [20, 50, 100, 200]
  /** Periods of the exponential moving averages the aggregator computes, in order. */
  const EmaPeriods: seq<nat> := [12, 26]

  const RsiPeriod: nat := 14
  const RsiOverbought: real := 70.0
  const RsiOversold: real := 30.0

  const MacdFast: nat := 12
  const MacdSlow: nat := 26
  const MacdSignal: nat := 9

  const BollingerPeriod: nat := 20
  const BollingerStdDev: real := 2.0

  const MomentumPeriod: nat := 10

  /** Grams in one troy ounce. */
  const TroyOzToGrams: real := 31.1035

  /** Cache durations in milliseconds. */
  const CacheIntraday: int := 5 * 60 * 1000
  const CacheDaily: int := 60 * 60 * 1000
}
