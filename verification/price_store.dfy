/** The live-price store: the latest gold and silver quotes, the gold/silver
    ratio, the connection flag and the display currency, with its four state
    transitions as pure functions from the old state to the new one. The
    clock read when a quote is created from scratch is the argument `now`. */
module PriceStore {
  import opened Series

  datatype Price = Price(
    symbol: string,
    price: real,
    change: real,
    changePercent: real,
    high: real,
    low: real,
    open: real,
    previousClose: real,
    timestamp: int)

  /** A partial quote: `None` marks a field the update does not supply. */
  datatype PartialPrice = PartialPrice(
    symbol: Option<string>,
    price: Option<real>,
    change: Option<real>,
    changePercent: Option<real>,
    high: Option<real>,
    low: Option<real>,
    open: Option<real>,
    previousClose: Option<real>,
    timestamp: Option<int>)

  datatype State = State(
    gold: Option<Price>,
    silver: Option<Price>,
    ratio: Option<real>,
    connected: bool,
    currency: string)

  /** The store before any transition: no quotes, no ratio, disconnected, USD. */
  const Initial: State := State(None, None, None, false, "USD")

  /** The update that supplies no field. */
  const NoFields: PartialPrice := PartialPrice(None, None, None, None, None, None, None, None, None)

  function Pick<T>(supplied: Option<T>, kept: T): T
  {
    if supplied.Some? then supplied.value else kept
  }

  /** Object spread `{ ...p, ...u }`: every supplied field replaces the old one. */
  function Apply(p: Price, u: PartialPrice): (r: Price)
    ensures u.symbol.Some? ==> r.symbol == u.symbol.value
    ensures u.symbol.None? ==> r.symbol == p.symbol
    ensures u.price.Some? ==> r.price == u.price.value
    ensures u.price.None? ==> r.price == p.price
    ensures u.change.Some? ==> r.change == u.change.value
    ensures u.change.None? ==> r.change == p.change
    ensures u.changePercent.Some? ==> r.changePercent == u.changePercent.value
    ensures u.changePercent.None? ==> r.changePercent == p.changePercent
    ensures u.high.Some? ==> r.high == u.high.value
    ensures u.high.None? ==> r.high == p.high
    ensures u.low.Some? ==> r.low == u.low.value
    ensures u.low.None? ==> r.low == p.low
    ensures u.open.Some? ==> r.open == u.open.value
    ensures u.open.None? ==> r.open == p.open
    ensures u.previousClose.Some? ==> r.previousClose == u.previousClose.value
    ensures u.previousClose.None? ==> r.previousClose == p.previousClose
    ensures u.timestamp.Some? ==> r.timestamp == u.timestamp.value
    ensures u.timestamp.None? ==> r.timestamp == p.timestamp
  {
    Price(Pick(u.symbol, p.symbol), Pick(u.price, p.price), Pick(u.change, p.change),
          Pick(u.changePercent, p.changePercent), Pick(u.high, p.high), Pick(u.low, p.low),
          Pick(u.open, p.open), Pick(u.previousClose, p.previousClose),
          Pick(u.timestamp, p.timestamp))
  }

  /** Two successive updates combined into one: the later one's supplied fields win. */
  function Combine(u1: PartialPrice, u2: PartialPrice): PartialPrice
  {
    PartialPrice(
      if u2.symbol.Some? then u2.symbol else u1.symbol,
      if u2.price.Some? then u2.price else u1.price,
      if u2.change.Some? then u2.change else u1.change,
      if u2.changePercent.Some? then u2.changePercent else u1.changePercent,
      if u2.high.Some? then u2.high else u1.high,
      if u2.low.Some? then u2.low else u1.low,
      if u2.open.Some? then u2.open else u1.open,
      if u2.previousClose.Some? then u2.previousClose else u1.previousClose,
      if u2.timestamp.Some? then u2.timestamp else u1.timestamp)
  }

  /** Applying two updates in turn is applying their combination once. */
  lemma ApplyCombine(p: Price, u1: PartialPrice, u2: PartialPrice)
    ensures Apply(Apply(p, u1), u2) == Apply(p, Combine(u1, u2))
  {
  }

  /** An empty update leaves the quote as it is; repeating an update changes nothing more. */
  lemma ApplyIdentityAndIdempotent(p: Price, u: PartialPrice)
    ensures Apply(p, NoFields) == p
    ensures Apply(Apply(p, u), u) == Apply(p, u)
  {
  }

  /** A fresh quote for `symbol`: every number 0, stamped `now`. */
  function Fresh(symbol: string, now: int): (r: Price)
    ensures r.symbol == symbol && r.timestamp == now
    ensures r.price == 0.0 && r.change == 0.0 && r.changePercent == 0.0
    ensures r.high == 0.0 && r.low == 0.0 && r.open == 0.0 && r.previousClose == 0.0
  {
    Price(symbol, 0.0, 0.0, 0.0, 0.0, 0.0, 0.0, 0.0, now)
  }

  /** The quote after an update: the old quote with the supplied fields
      replaced, or a fresh quote with them applied when there was none. */
  function Merge(current: Option<Price>, symbol: string, u: PartialPrice, now: int): (r: Price)
    ensures current.Some? ==> r == Apply(current.value, u)
    ensures u.price.Some? ==> r.price == u.price.value
    ensures u.symbol.Some? ==> r.symbol == u.symbol.value
    ensures u.timestamp.Some? ==> r.timestamp == u.timestamp.value
    ensures current.None? ==>
              && r.symbol == (if u.symbol.Some? then u.symbol.value else symbol)
              && r.timestamp == (if u.timestamp.Some? then u.timestamp.value else now)
              && r.price == (if u.price.Some? then u.price.value else 0.0)
              && r.change == (if u.change.Some? then u.change.value else 0.0)
              && r.high == (if u.high.Some? then u.high.value else 0.0)
              && r.low == (if u.low.Some? then u.low.value else 0.0)
              && r.open == (if u.open.Some? then u.open.value else 0.0)
              && r.previousClose == (if u.previousClose.Some? then u.previousClose.value else 0.0)
              && r.changePercent == (if u.changePercent.Some? then u.changePercent.value else 0.0)
  {
    if current.Some? then Apply(current.value, u) else Apply(Fresh(symbol, now), u)
  }

  /** The ratio rule shared by both updates: gold over silver when both
      quotes exist with non-zero prices, otherwise the previous ratio. */
  function RatioAfter(gold: Option<Price>, silver: Option<Price>, previous: Option<real>): (r: Option<real>)
    ensures BothPriced(gold, silver) ==> r.Some? && r.value * silver.value.price == gold.value.price
    ensures !BothPriced(gold, silver) ==> r == previous
  {
    if BothPriced(gold, silver) then
      DivideBack(gold.value.price, silver.value.price);
      Some(gold.value.price / silver.value.price)
    else previous
  }

  predicate BothPriced(gold: Option<Price>, silver: Option<Price>)
  {
    gold.Some? && silver.Some? && gold.value.price != 0.0 && silver.value.price != 0.0
  }

  lemma DivideBack(g: real, s: real)
    requires s != 0.0
    ensures g / s * s == g
  {
  }

  /** `updateGold`: changes the gold quote and the ratio only. */
  function UpdateGold(st: State, u: PartialPrice, now: int): (r: State)
    ensures r.gold == Some(Merge(st.gold, "XAU/USD", u, now))
    ensures r.ratio == RatioAfter(r.gold, st.silver, st.ratio)
    ensures r.silver == st.silver && r.connected == st.connected && r.currency == st.currency
  {
    var gold := Merge(st.gold, "XAU/USD", u, now);
    st.(gold := Some(gold), ratio := RatioAfter(Some(gold), st.silver, st.ratio))
  }

  /** `updateSilver`: changes the silver quote and the ratio only. */
  function UpdateSilver(st: State, u: PartialPrice, now: int): (r: State)
    ensures r.silver == Some(Merge(st.silver, "XAG/USD", u, now))
    ensures r.ratio == RatioAfter(st.gold, r.silver, st.ratio)
    ensures r.gold == st.gold && r.connected == st.connected && r.currency == st.currency
  {
    var silver := Merge(st.silver, "XAG/USD", u, now);
    st.(silver := Some(silver), ratio := RatioAfter(st.gold, Some(silver), st.ratio))
  }

  /** `setConnected`: changes the connection flag only. */
  function SetConnected(st: State, connected: bool): (r: State)
    ensures r.connected == connected
    ensures r.gold == st.gold && r.silver == st.silver && r.ratio == st.ratio && r.currency == st.currency
  {
    st.(connected := connected)
  }

  /** `setCurrency`: changes the display currency only. */
  function SetCurrency(st: State, currency: string): (r: State)
    ensures r.currency == currency
    ensures r.gold == st.gold && r.silver == st.silver && r.ratio == st.ratio && r.connected == st.connected
  {
    st.(currency := currency)
  }

  /** Whenever both quotes carry non-zero prices, the ratio is gold over silver. */
  predicate RatioConsistent(st: State)
  {
    BothPriced(st.gold, st.silver) ==> st.ratio == Some(st.gold.value.price / st.silver.value.price)
  }

  /** Every transition keeps the ratio consistent with the quotes; the
      quote updates establish it from any state. */
  lemma TransitionsKeepRatioConsistent(st: State, u: PartialPrice, now: int, connected: bool, currency: string)
    ensures RatioConsistent(Initial)
    ensures RatioConsistent(UpdateGold(st, u, now))
    ensures RatioConsistent(UpdateSilver(st, u, now))
    ensures RatioConsistent(st) ==> RatioConsistent(SetConnected(st, connected))
    ensures RatioConsistent(st) ==> RatioConsistent(SetCurrency(st, currency))
  {
  }

  /** A first gold update starts from the XAU/USD defaults stamped `now`:
      only the supplied fields differ from 0. */
  lemma FirstGoldUpdate(u: PartialPrice, now: int)
    ensures var g := UpdateGold(Initial, u, now).gold.value;
            && g.symbol == (if u.symbol.Some? then u.symbol.value else "XAU/USD")
            && g.price == (if u.price.Some? then u.price.value else 0.0)
            && g.timestamp == (if u.timestamp.Some? then u.timestamp.value else now)
  {
  }

  /** With no silver quote yet, a gold update keeps the previous ratio; a
      zero price on either side does too. */
  lemma RatioKeptWithoutBothPrices(st: State, u: PartialPrice, now: int)
    requires st.silver.None? || st.silver.value.price == 0.0
    ensures UpdateGold(st, u, now).ratio == st.ratio
  {
  }

  /** Gold then silver with non-zero prices give their ratio, whatever came before. */
  lemma GoldThenSilverRatio(st: State, g: real, s: real, now: int)
    requires g != 0.0 && s != 0.0
    ensures var u1 := NoFields.(price := Some(g));
            var u2 := NoFields.(price := Some(s));
            var r := UpdateSilver(UpdateGold(st, u1, now), u2, now);
            r.ratio == Some(g / s) && r.ratio.value * s == g
  {
  }
}
