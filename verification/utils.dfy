/** Unit conversions of a per-troy-ounce price, the forex market-hours rule
    over the UTC day of the week and hour, and the stale time of a chart
    interval. The clock is replaced by its two readings. */
module Utils {
  import Constants

  /** `priceToGrams`: the price of one gram given the price of one troy ounce. */
  function PriceToGrams(pricePerOz: real): (r: real)
    ensures r * Constants.TroyOzToGrams == pricePerOz
  {
    pricePerOz / Constants.TroyOzToGrams
  }

  /** `priceToKg`: the price of one kilogram, the ounce price times
      `1000 / 31.1035`. */
  function PriceToKg(pricePerOz: real): (r: real)
    ensures r * Constants.TroyOzToGrams == 1000.0 * pricePerOz
  {
    pricePerOz * (1000.0 / Constants.TroyOzToGrams)
  }

  /** A kilogram costs a thousand grams. */
  lemma KgIsThousandGrams(pricePerOz: real)
    ensures PriceToKg(pricePerOz) == 1000.0 * PriceToGrams(pricePerOz)
  {
    ScaleCancels(PriceToKg(pricePerOz), 1000.0 * PriceToGrams(pricePerOz));
  }

  /** Two prices with the same value per troy ounce are equal. */
  lemma ScaleCancels(a: real, b: real)
    requires a * Constants.TroyOzToGrams == b * Constants.TroyOzToGrams
    ensures a == b
  {
  }

  /** Both conversions are zero exactly at zero, keep the sign, and are
      strictly increasing. */
  lemma ConversionsOrder(p: real, q: real)
    ensures PriceToGrams(p) == 0.0 <==> p == 0.0
    ensures PriceToKg(p) == 0.0 <==> p == 0.0
    ensures PriceToGrams(p) > 0.0 <==> p > 0.0
    ensures p < q ==> PriceToGrams(p) < PriceToGrams(q) && PriceToKg(p) < PriceToKg(q)
  {
    KgIsThousandGrams(p);
    KgIsThousandGrams(q);
  }

  /** Days of the week as `getUTCDay` numbers them: 0 is Sunday, 6 Saturday. */
  const Sunday: nat := 0
  const Friday: nat := 5
  const Saturday: nat := 6

  /** `isMarketOpen`: closed all Saturday, on Sunday before 22:00 UTC and on
      Friday from 22:00 UTC; open at every other hour. */
  function IsMarketOpen(utcDay: nat, utcHour: nat): (open: bool)
    requires utcDay <= 6 && utcHour <= 23
    ensures !open <==> utcDay == Saturday || (utcDay == Sunday && utcHour < 22) || (utcDay == Friday && utcHour >= 22)
  {
    if utcDay == Sunday && utcHour < 22 then false
    else if utcDay == Saturday then false
    else if utcDay == Friday && utcHour >= 22 then false
    else true
  }

  /** Counted in hours from Sunday 00:00 UTC, the market is open exactly on
      the one stretch from Sunday 22:00 to Friday 22:00: 120 hours a week. */
  lemma MarketOpenWindow(utcDay: nat, utcHour: nat)
    requires utcDay <= 6 && utcHour <= 23
    ensures IsMarketOpen(utcDay, utcHour) <==> 22 <= utcDay * 24 + utcHour < 5 * 24 + 22
  {
  }

  /** Monday to Thursday the market is open around the clock. */
  lemma OpenMondayToThursday(utcDay: nat, utcHour: nat)
    requires 1 <= utcDay <= 4 && utcHour <= 23
    ensures IsMarketOpen(utcDay, utcHour)
  {
  }

  /** `getTimeframeStaleTime`: five minutes for the intraday intervals,
      one hour for every other interval. */
  function StaleTime(interval: string): (ms: int)
    ensures ms == Constants.CacheIntraday <==> interval in IntradayIntervals
    ensures ms == Constants.CacheDaily <==> interval !in IntradayIntervals
    ensures ms == 300000 <==> interval == "1min" || interval == "5min" || interval == "15min"
    ensures ms == 300000 || ms == 3600000
  {
    if interval in IntradayIntervals then 5 * 60 * 1000 else 60 * 60 * 1000
  }

  /** The intervals treated as intraday. */
  const IntradayIntervals: seq<string> := ["1min", "5min", "15min"]
}
