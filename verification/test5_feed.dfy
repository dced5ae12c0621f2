/** `Test5CcxtFeed`: the ccxt price corrected by how far earlier submissions
    sat above or below the FTSO price, steered by a 15-second trend of the
    feed's exchange prices. The price history, the feed id and the decimals
    come from the database and are parameters here.

    The history filter and averages read a field `ftso_value` that the
    history rows do not have (they carry `ftso_price`). Every comparison
    with the missing field is false, so the code as written never moves the
    price: `AdjustPriceAsWritten` models that. Reading `ftso_price` alone
    would not help, because the filter and the averages rescale the row's
    prices by 10^decimals although `getPriceHistory` has already divided
    them by it. `AdjustPrice` is the corrected version: it reads the row's
    FTSO price and works in the price units the rows carry. */
module Test5Feed {
  import opened Common
  import opened Market
  import opened CcxtState

  /** Exchange prices older than this do not enter the trend. */
  const FRESH_MS: int := 30000

  /** A move of more than this percentage between the first and the last
      fresh price is a trend. */
  const TREND_PCT: real := 0.03

  /** History rows whose ccxt price is further than this percentage from the
      FTSO price are ignored. */
  const TOLERANCE_PCT: real := 0.05

  // ---------------------------------------------------------------- 15-second trend

  /** `config.find(f => f.feed.name === name)`: the first entry with that
      name, whatever its category. */
  function FindByName(config: seq<FeedConfig>, name: string): (r: Option<FeedConfig>)
    ensures r.Some? ==> r.value in config && r.value.feed.name == name
    ensures r.None? <==> forall i :: 0 <= i < |config| ==> config[i].feed.name != name
  {
    if |config| == 0 then None
    else if config[0].feed.name == name then Some(config[0])
    else FindByName(config[1..], name)
  }

  /** The source's latest price when it is at most 30 seconds old. */
  function FreshPrice(latest: PriceMap, s: Source, now: int): (r: Option<real>)
    ensures r.Some? <==> Get(latest, s.symbol).Some? && Get(Get(latest, s.symbol).value, s.exchange).Some?
                         && now - Get(Get(latest, s.symbol).value, s.exchange).value.time <= FRESH_MS
  {
    match Get(latest, s.symbol)
    case None => None
    case Some(m) =>
      match Get(m, s.exchange)
      case None => None
      case Some(info) => if now - info.time > FRESH_MS then None else Some(info.value)
  }

  /** The fresh prices of the sources, in source order. */
  function FreshPrices(latest: PriceMap, sources: seq<Source>, now: int): (r: seq<real>)
    ensures |r| <= |sources|
  {
    if |sources| == 0 then []
    else
      var rest := FreshPrices(latest, sources[1..], now);
      match FreshPrice(latest, sources[0], now)
      case None => rest
      case Some(p) => [p] + rest
  }

  /** Sources with no fresh price contribute nothing. */
  lemma {:induction false} NoFreshPrices(latest: PriceMap, sources: seq<Source>, now: int)
    requires forall i :: 0 <= i < |sources| ==> FreshPrice(latest, sources[i], now).None?
    ensures FreshPrices(latest, sources, now) == []
    decreases |sources|
  {
    if |sources| > 0 {
      NoFreshPrices(latest, sources[1..], now);
    }
  }

  /** `pct > 0.03 ? "up" : pct < -0.03 ? "down" : "flat"` for
      `pct = (last - first) / first * 100`. A zero first price gives an
      infinite percentage, which is up or down by the sign of the last
      price, or NaN (flat) when the last price is zero too. */
  function PctTrend(first: real, last: real): (t: Trend)
    ensures first == 0.0 ==> (t == Up <==> last > 0.0) && (t == Down <==> last < 0.0)
  {
    if first == 0.0 then
      if last > 0.0 then Up else if last < 0.0 then Down else Flat
    else
      var pct := (last - first) / first * 100.0;
      if pct > TREND_PCT then Up else if pct < -TREND_PCT then Down else Flat
  }

  /** For a positive first price the trend is up exactly when the last
      price is more than 0.03 % above it, and down exactly when it is more
      than 0.03 % below it. */
  lemma PctTrendThresholds(first: real, last: real)
    requires first > 0.0
    ensures PctTrend(first, last) == Up <==> last - first > first * TREND_PCT / 100.0
    ensures PctTrend(first, last) == Down <==> last - first < -(first * TREND_PCT / 100.0)
  {
    var d := last - first;
    var x := d / first * 100.0;
    var c := first * TREND_PCT / 100.0;
    assert x * first == d * 100.0;
    assert c * 100.0 == TREND_PCT * first;
    SameSide(x, d, first, TREND_PCT, c);
    SameSide(x, d, first, -TREND_PCT, -c);
  }

  /** `x` and `d` are the same quantity in two units, and so are `t` and `c`. */
  lemma SameSide(x: real, d: real, k: real, t: real, c: real)
    requires k > 0.0
    requires x * k == d * 100.0 && c * 100.0 == t * k
    ensures x > t <==> d > c
    ensures x < t <==> d < c
  {
    ScaledCompare(x, k, t);
    ScaledCompare(d, 100.0, c);
  }

  lemma ScaledCompare(x: real, k: real, c: real)
    requires k > 0.0
    ensures x > c <==> x * k > c * k
    ensures x < c <==> x * k < c * k
  {
    if x > c {
      assert (x - c) * k > 0.0;
    } else if x < c {
      assert (c - x) * k > 0.0;
    }
  }

  /** `getTrend15s(feedName)` at time `now`: flat without a configuration
      entry of that name or without sources, or with fewer than two fresh
      prices; otherwise the trend from the first to the last fresh price. */
  function Trend15s(config: seq<FeedConfig>, latest: PriceMap, name: string, now: int): (t: Trend)
    ensures FindByName(config, name).None? ==> t == Flat
  {
    match FindByName(config, name)
    case None => Flat
    case Some(c) =>
      var prices := FreshPrices(latest, c.sources, now);
      if |c.sources| == 0 || |prices| < 2 then Flat
      else PctTrend(prices[0], prices[|prices| - 1])
  }

  /** With every source of the feed stale or missing there is no trend. */
  lemma StaleSourcesFlat(config: seq<FeedConfig>, latest: PriceMap, name: string, now: int)
    requires FindByName(config, name).Some?
    requires var c := FindByName(config, name).value;
      forall i :: 0 <= i < |c.sources| ==> FreshPrice(latest, c.sources[i], now).None?
    ensures Trend15s(config, latest, name, now) == Flat
  {
    NoFreshPrices(latest, FindByName(config, name).value.sources, now);
  }

  // ---------------------------------------------------------------- history correction

  /** How a history row's FTSO price is read: a number, or NaN standing for
      a field that is not there (`undefined`), which every comparison
      rejects and every arithmetic operation turns into NaN. */
  type FtsoReading = HistoryRow -> Num

  /** `row.ftso_value` as written: the rows have no such field. */
  function MissingField(row: HistoryRow): Num
  {
    NaN
  }

  /** `row.ftso_price`, the FTSO price the rows carry. */
  function FtsoPrice(row: HistoryRow): Num
  {
    Real(row.ftsoPrice)
  }

  /** `a > b` and `a < b` for a `b` that may be undefined. */
  predicate Above(a: real, b: Num)
  {
    b.Real? && a > b.r
  }

  predicate Below(a: real, b: Num)
  {
    b.Real? && a < b.r
  }

  function ValueOr0(n: Num): real
  {
    if n.Real? then n.r else 0.0
  }

  /** The tolerance filter as written: with
      `ftsoScaled = Math.round(ftso * scale)`, keep the row when
      `|(ccxt - ftsoScaled) / ftsoScaled| * 100 <= 0.05`. A zero or NaN
      `ftsoScaled` makes the quotient non-finite or NaN, which fails the
      test. */
  predicate Kept(row: HistoryRow, scale: real, ftso: FtsoReading)
  {
    ftso(row).Real? &&
    var fs := Round(ftso(row).r * scale) as real;
    fs != 0.0 && Abs((row.ccxtPrice - fs) / fs) * 100.0 <= TOLERANCE_PCT
  }

  function KeptRows(history: seq<HistoryRow>, scale: real, ftso: FtsoReading): (r: seq<HistoryRow>)
  {
    Filter(history, (row: HistoryRow) => Kept(row, scale, ftso))
  }

  /** `(r.submitted ?? r.ccxt_price) / scale - r.ftso`: the history rows
      always carry a number in `submitted`, so it is the one read. */
  function OverGap(scale: real, ftso: FtsoReading): HistoryRow -> real
    requires scale > 0.0
  {
    (row: HistoryRow) => row.submitted / scale - ValueOr0(ftso(row))
  }

  /** `r.ftso - (r.submitted ?? r.ccxt_price) / scale`. */
  function UnderGap(scale: real, ftso: FtsoReading): HistoryRow -> real
    requires scale > 0.0
  {
    (row: HistoryRow) => ValueOr0(ftso(row)) - row.submitted / scale
  }

  /** The kept rows whose ccxt price, divided by the scale, is above
      (`over`) or below (`under`) the FTSO price. */
  function OverRows(history: seq<HistoryRow>, scale: real, ftso: FtsoReading): (r: seq<HistoryRow>)
    requires scale > 0.0
    ensures forall i :: 0 <= i < |r| ==> r[i] in history && Kept(r[i], scale, ftso) && Above(r[i].ccxtPrice / scale, ftso(r[i]))
  {
    var kept := KeptRows(history, scale, ftso);
    Filter(kept, (row: HistoryRow) => Above(row.ccxtPrice / scale, ftso(row)))
  }

  function UnderRows(history: seq<HistoryRow>, scale: real, ftso: FtsoReading): (r: seq<HistoryRow>)
    requires scale > 0.0
    ensures forall i :: 0 <= i < |r| ==> r[i] in history && Kept(r[i], scale, ftso) && Below(r[i].ccxtPrice / scale, ftso(r[i]))
  {
    var kept := KeptRows(history, scale, ftso);
    Filter(kept, (row: HistoryRow) => Below(row.ccxtPrice / scale, ftso(row)))
  }

  /** `xs.length ? sum / xs.length : 0`. */
  function MeanOr0(xs: seq<real>): real
  {
    if |xs| == 0 then 0.0 else Mean(xs)
  }

  /** `avgOver`: how far the submissions of the over rows sat above the
      FTSO price, on average, or 0 without such rows. */
  function AvgOver(history: seq<HistoryRow>, scale: real, ftso: FtsoReading): real
    requires scale > 0.0
  {
    MeanOr0(MapSeq(OverRows(history, scale, ftso), OverGap(scale, ftso)))
  }

  /** `avgUnder`: how far the submissions of the under rows sat below the
      FTSO price, on average, or 0 without such rows. */
  function AvgUnder(history: seq<HistoryRow>, scale: real, ftso: FtsoReading): real
    requires scale > 0.0
  {
    MeanOr0(MapSeq(UnderRows(history, scale, ftso), UnderGap(scale, ftso)))
  }

  /** `history.slice(0, 2)`: the two newest rows. */
  function LastTwo(history: seq<HistoryRow>): (r: seq<HistoryRow>)
    ensures |r| == if |history| < 2 then |history| else 2
    ensures r == history[..|r|]
  {
    if |history| < 2 then history else history[..2]
  }

  /** `trend === "up" && last2.every(r => r.ccxt_price > r.ftso)`; `every`
      holds on an empty list. */
  predicate ForceOver(history: seq<HistoryRow>, trend: Trend, ftso: FtsoReading)
  {
    var last2 := LastTwo(history);
    trend == Up && forall i :: 0 <= i < |last2| ==> Above(last2[i].ccxtPrice, ftso(last2[i]))
  }

  predicate ForceUnder(history: seq<HistoryRow>, trend: Trend, ftso: FtsoReading)
  {
    var last2 := LastTwo(history);
    trend == Down && forall i :: 0 <= i < |last2| ==> Below(last2[i].ccxtPrice, ftso(last2[i]))
  }

  /** The branch table of `adjustPrice` for a given way of reading the FTSO
      price: a forced over-correction subtracts `avgOver / scale`, a forced
      under-correction adds `avgUnder / scale`; otherwise an up trend adds
      `avgUnder / scale`, a down trend subtracts `avgOver / scale` and a flat
      one adds `(avgUnder - avgOver) / (2 * scale)`. */
  function AdjustWith(original: real, history: seq<HistoryRow>, trend: Trend, scale: real, ftso: FtsoReading): real
    requires scale > 0.0
  {
    var avgOver := AvgOver(history, scale, ftso);
    var avgUnder := AvgUnder(history, scale, ftso);
    if ForceOver(history, trend, ftso) then original - avgOver / scale
    else if ForceUnder(history, trend, ftso) then original + avgUnder / scale
    else if trend == Up then original + avgUnder / scale
    else if trend == Down then original - avgOver / scale
    else original + (avgUnder - avgOver) / (2.0 * scale)
  }

  /** `adjustPrice` as written, reading the missing `ftso_value` field. */
  function AdjustPriceAsWritten(original: real, history: seq<HistoryRow>, trend: Trend, scale: real): real
    requires scale > 0.0
  {
    AdjustWith(original, history, trend, scale, MissingField)
  }

  /** As written, no row passes the tolerance filter and both averages are
      0, so the price is returned unchanged on every branch. */
  lemma AsWrittenNeverAdjusts(original: real, history: seq<HistoryRow>, trend: Trend, scale: real)
    requires scale > 0.0
    ensures AdjustPriceAsWritten(original, history, trend, scale) == original
  {
    FilterNothing(history, (row: HistoryRow) => Kept(row, scale, MissingField));
  }

  /** Reading `ftso_price` does not repair the filter on its own: it
      compares the row's ccxt price, already divided by 10^decimals, with the
      FTSO price multiplied by 10^decimals, so a row 0.02 % above its FTSO
      price at eight decimals is still dropped. */
  lemma ScaledFilterDropsNearRow()
    ensures !Kept(HistoryRow(0, 0, 1.0002, 0.0, 1.0003, 1.0, 8), 100000000.0, FtsoPrice)
  {
    assert Round(1.0 * 100000000.0) == 100000000;
  }

  // ---------------------------------------------------------------- corrected history correction

  /** The corrected filter, on rows in the units `getPriceHistory` returns:
      keep a row whose ccxt price lies within 0.05 % of its FTSO price. A
      zero FTSO price makes the quotient non-finite or NaN, which fails. */
  predicate Near(row: HistoryRow)
  {
    row.ftsoPrice != 0.0 && Abs((row.ccxtPrice - row.ftsoPrice) / row.ftsoPrice) * 100.0 <= TOLERANCE_PCT
  }

  /** The near rows whose ccxt price lies above the FTSO price. */
  function NearOver(history: seq<HistoryRow>): (r: seq<HistoryRow>)
    ensures forall i :: 0 <= i < |r| ==> r[i] in history && Near(r[i]) && r[i].ccxtPrice > r[i].ftsoPrice
  {
    Filter(Filter(history, Near), (row: HistoryRow) => row.ccxtPrice > row.ftsoPrice)
  }

  /** The near rows whose ccxt price lies below the FTSO price. */
  function NearUnder(history: seq<HistoryRow>): (r: seq<HistoryRow>)
    ensures forall i :: 0 <= i < |r| ==> r[i] in history && Near(r[i]) && r[i].ccxtPrice < r[i].ftsoPrice
  {
    Filter(Filter(history, Near), (row: HistoryRow) => row.ccxtPrice < row.ftsoPrice)
  }

  /** How far a row's submission sat above, or below, its FTSO price. */
  function GapAbove(row: HistoryRow): real
  {
    row.submitted - row.ftsoPrice
  }

  function GapBelow(row: HistoryRow): real
  {
    row.ftsoPrice - row.submitted
  }

  /** The corrected `avgOver` and `avgUnder`: the mean gaps of the near over
      and under rows, in price units, or 0 without such rows. */
  function AvgOverGap(history: seq<HistoryRow>): real
  {
    MeanOr0(MapSeq(NearOver(history), GapAbove))
  }

  function AvgUnderGap(history: seq<HistoryRow>): real
  {
    MeanOr0(MapSeq(NearUnder(history), GapBelow))
  }

  /** `adjustPrice` corrected: the branch table of the source, reading the
      row's FTSO price, and moving the price by the average gaps themselves
      rather than by the gaps divided by 10^decimals once more. */
  function AdjustPrice(original: real, history: seq<HistoryRow>, trend: Trend): real
  {
    var avgOver := AvgOverGap(history);
    var avgUnder := AvgUnderGap(history);
    if ForceOver(history, trend, FtsoPrice) then original - avgOver
    else if ForceUnder(history, trend, FtsoPrice) then original + avgUnder
    else if trend == Up then original + avgUnder
    else if trend == Down then original - avgOver
    else original + (avgUnder - avgOver) / 2.0
  }

  /** Corrected, the history does move the price: one row 0.02 % above its
      FTSO price whose submission sat 0.0003 above it lowers a flat feed's
      price by half that gap. */
  lemma CorrectedAdjusts()
    ensures AdjustPrice(1.0, [HistoryRow(0, 0, 1.0002, 0.0, 1.0003, 1.0, 8)], Flat) == 0.99985
  {
    var row := HistoryRow(0, 0, 1.0002, 0.0, 1.0003, 1.0, 8);
    assert Near(row);
    assert Filter([row], Near) == [row];
    assert NearOver([row]) == [row];
    assert NearUnder([row]) == [];
    assert MapSeq([row], GapAbove) == [0.0003];
    assert Sum([0.0003]) == 0.0003 by {
      assert [0.0003][..0] == [];
    }
    assert AvgOverGap([row]) == 0.0003;
  }

  /** An empty history leaves the price unchanged, whatever the trend. */
  lemma EmptyHistoryUnchanged(original: real, trend: Trend)
    ensures AdjustPrice(original, [], trend) == original
  {
  }

  /** The flat correction is the midpoint of the up correction (add
      `avgUnder`) and the down correction (subtract `avgOver`); an up or
      down trend picks one of the two, so every result lies between them. */
  lemma AdjustBetweenCorrections(original: real, history: seq<HistoryRow>, trend: Trend)
    ensures var up := original + AvgUnderGap(history);
      var down := original - AvgOverGap(history);
      var r := AdjustPrice(original, history, trend);
      (trend == Flat ==> r == (up + down) / 2.0) &&
      (trend != Flat ==> r == up || r == down)
  {
    if trend == Flat {
      assert !ForceOver(history, trend, FtsoPrice) && !ForceUnder(history, trend, FtsoPrice);
    }
  }

  /** When every submission was at least the ccxt price it was quoted with,
      the over rows' submissions sat above the FTSO price, so a forced
      over-correction never raises the price. */
  lemma ForcedOverNeverRaises(original: real, history: seq<HistoryRow>)
    requires forall i :: 0 <= i < |history| ==> history[i].submitted >= history[i].ccxtPrice
    requires ForceOver(history, Up, FtsoPrice)
    ensures AdjustPrice(original, history, Up) <= original
  {
    AvgOverNonNegative(history);
  }

  /** Submissions at or above their ccxt prices put every over row's
      submission above the FTSO price, so the average gap is not negative. */
  lemma AvgOverNonNegative(history: seq<HistoryRow>)
    requires forall i :: 0 <= i < |history| ==> history[i].submitted >= history[i].ccxtPrice
    ensures AvgOverGap(history) >= 0.0
  {
    var gaps := MapSeq(NearOver(history), GapAbove);
    if |gaps| > 0 {
      MeanBounds(gaps, 0.0, Max(gaps));
    }
  }

  /** The mirror image: submissions at or below their ccxt prices never let
      a forced under-correction lower the price. */
  lemma ForcedUnderNeverLowers(original: real, history: seq<HistoryRow>)
    requires forall i :: 0 <= i < |history| ==> history[i].submitted <= history[i].ccxtPrice
    requires ForceUnder(history, Down, FtsoPrice)
    ensures AdjustPrice(original, history, Down) >= original
  {
    AvgUnderNonNegative(history);
  }

  lemma AvgUnderNonNegative(history: seq<HistoryRow>)
    requires forall i :: 0 <= i < |history| ==> history[i].submitted <= history[i].ccxtPrice
    ensures AvgUnderGap(history) >= 0.0
  {
    var gaps := MapSeq(NearUnder(history), GapBelow);
    if |gaps| > 0 {
      MeanBounds(gaps, 0.0, Max(gaps));
    }
  }

  // ---------------------------------------------------------------- value

  /** `Test5CcxtFeed.getValue(feed)` on the ccxt price `original`, with the
      feed's database id as read (it may be missing) and its price history,
      newest first: a feed without a (truthy) id keeps its price; otherwise
      the corrected `adjustPrice` moves it. The decimals the source reads
      only scale the stored submission and the as-written filter. */
  function Test5Value(feed: FeedId, original: real, feedId: Option<int>,
                      history: seq<HistoryRow>, config: seq<FeedConfig>, latest: PriceMap, now: int): (r: FeedValue)
    ensures r.feed == feed
    ensures feedId.None? || feedId.value == 0 ==> r.value == original
    ensures history == [] ==> r.value == original
  {
    if feedId.None? || feedId.value == 0 then FeedValue(feed, original)
    else
      var trend := Trend15s(config, latest, feed.name, now);
      EmptyHistoryUnchanged(original, trend);
      FeedValue(feed, AdjustPrice(original, history, trend))
  }

  /** `Test5CcxtFeed.getValue(feed)` as written, with `scale` the feed's
      `10 ** decimals`: the adjustment reads the missing `ftso_value` field,
      so every feed gets its ccxt price back unchanged. */
  function Test5ValueAsWritten(feed: FeedId, original: real, feedId: Option<int>, scale: real,
                               history: seq<HistoryRow>, config: seq<FeedConfig>, latest: PriceMap, now: int): (r: FeedValue)
    requires scale > 0.0
    ensures r.feed == feed && r.value == original
  {
    if feedId.None? || feedId.value == 0 then FeedValue(feed, original)
    else
      var trend := Trend15s(config, latest, feed.name, now);
      AsWrittenNeverAdjusts(original, history, trend, scale);
      FeedValue(feed, AdjustPriceAsWritten(original, history, trend, scale))
  }
}
