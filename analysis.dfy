/**
  The single-asset layer: price bars, the loader `pegar_dados` (suffix rule,
  fetch, indicator columns) over an abstract data provider, the two day-change
  expressions and the RSI signal thresholds.
*/
module Analysis {
  import opened Wrappers
  import opened Ticker
  import opened Indicators

  /** One row of the provider's daily history. */
  datatype Bar = Bar(open: real, high: real, low: real, close: real, volume: real)

  /**
    The market-data provider: the history of a symbol over a period such as
    "1y", or None when the provider (or the metadata request beside it) fails.
    A successful answer may still hold no bars.
  */
  type Fetcher = (string, string) -> Option<seq<Bar>>

  /** Period requested by the dashboard and the comparator (the default of `pegar_dados`). */
  const DefaultPeriod: string := "1y"
  /** Period requested by the scanner. */
  const ScanPeriod: string := "3mo"

  /** A provider that never answers. */
  function NoData(symbol: string, period: string): Option<seq<Bar>>
  {
    None
  }

  /** The `Close` column. */
  function Closes(bars: seq<Bar>): (r: seq<real>)
    ensures |r| == |bars| && forall i :: 0 <= i < |bars| ==> r[i] == bars[i].close
  {
    seq(|bars|, i requires 0 <= i < |bars| => bars[i].close)
  }

  /** The history with the columns SMA_20, SMA_50 and RSI added. */
  datatype Frame = Frame(bars: seq<Bar>, sma20: seq<Option<real>>, sma50: seq<Option<real>>, rsi: seq<Rsi>)

  function Analyse(bars: seq<Bar>): (f: Frame)
    ensures f.bars == bars
    ensures |f.sma20| == |f.sma50| == |f.rsi| == |bars|
    ensures forall i :: 0 <= i < |bars| ==> f.sma20[i] == Sma(Closes(bars), ShortWindow, i)
    ensures forall i :: 0 <= i < |bars| ==> f.sma50[i] == Sma(Closes(bars), LongWindow, i)
    ensures forall i :: 0 <= i < |bars| ==> f.rsi[i] == RsiAt(Closes(bars), i)
  {
    var xs := Closes(bars);
    Frame(bars, SmaColumn(xs, ShortWindow), SmaColumn(xs, LongWindow), RsiColumn(xs))
  }

  /**
    `pegar_dados(ticker, periodo)` as evidently intended: fetch the normalized
    symbol for the requested period and add the indicator columns; any failure
    of the provider yields None.
  */
  function Load(ticker: string, period: string, fetch: Fetcher): (r: Option<Frame>)
    ensures r.Some? <==> fetch(Normalize(ticker), period).Some?
    ensures r.Some? ==> r.value.bars == fetch(Normalize(ticker), period).value
  {
    match fetch(Normalize(ticker), period)
    case None => None
    case Some(bars) => Some(Analyse(bars))
  }

  /**
    `pegar_dados` as written: the history request names `period`, which is
    not defined anywhere, so it raises NameError, which the bare `except`
    turns into `(None, None)` whatever the provider would have answered.
  */
  function LoadAsWritten(ticker: string, period: string, fetch: Fetcher): (r: Option<Frame>)
    ensures r == Load(ticker, period, NoData)
  {
    None
  }

  /** With a provider that answers, the loader as written still fails and the intended one does not. */
  lemma AsWrittenLoadDiscardsData(ticker: string, period: string, fetch: Fetcher)
    requires fetch(Normalize(ticker), period).Some?
    ensures LoadAsWritten(ticker, period, fetch).None?
    ensures Load(ticker, period, fetch).Some?
  {
  }

  /** Result of a percentage change; a zero base gives inf or NaN in the source. */
  datatype DayChange = TooFewBars | NonFinite | Percent(value: real)

  /** `(to - base) / base * 100`. */
  function PctChange(base: real, to: real): (r: DayChange)
    ensures !r.TooFewBars?
    ensures r.NonFinite? <==> base == 0.0
    ensures r.Percent? ==> base * (1.0 + r.value / 100.0) == to
    ensures r.Percent? && 0.0 < base ==> (0.0 < r.value <==> base < to) && (r.value < 0.0 <==> to < base)
  {
    if base == 0.0 then NonFinite
    else
      var p := (to - base) / base * 100.0;
      assert p / 100.0 == (to - base) / base;
      Percent(p)
  }

  /**
    The dashboard's day change: last close against the previous close.
    Fewer than two bars makes `iloc[-2]` raise.
  */
  function DashboardChange(bars: seq<Bar>): (r: DayChange)
    ensures r.TooFewBars? <==> |bars| < 2
    ensures r.NonFinite? <==> 2 <= |bars| && bars[|bars| - 2].close == 0.0
    ensures r.Percent? ==> bars[|bars| - 2].close * (1.0 + r.value / 100.0) == bars[|bars| - 1].close
  {
    if |bars| < 2 then TooFewBars
    else PctChange(bars[|bars| - 2].close, bars[|bars| - 1].close)
  }

  /**
    The dashboard page for one typed ticker: "asset not found" when the loader
    fails; an IndexError (uncaught) when the history has fewer than two bars;
    otherwise the last close, the day change and the indicator columns.
  */
  datatype DashboardView = NotFound | IndexError | View(price: real, change: DayChange, frame: Frame)

  function Dashboard(ticker: string, fetch: Fetcher): (v: DashboardView)
    ensures v.NotFound? <==> fetch(Normalize(ticker), DefaultPeriod).None?
    ensures v.IndexError? <==> var h := fetch(Normalize(ticker), DefaultPeriod); h.Some? && |h.value| < 2
    ensures v.View? ==> var bars := fetch(Normalize(ticker), DefaultPeriod).value;
      && v.price == bars[|bars| - 1].close
      && v.change == DashboardChange(bars)
      && !v.change.TooFewBars?
      && v.frame.bars == bars
  {
    match Load(ticker, DefaultPeriod, fetch)
    case None => NotFound
    case Some(f) =>
      if |f.bars| < 2 then IndexError
      else View(f.bars[|f.bars| - 1].close, DashboardChange(f.bars), f)
  }

  /** The scanner's day change: close of a bar against the open of the same bar. */
  function SessionChange(bar: Bar): (r: DayChange)
    ensures !r.TooFewBars?
    ensures r.NonFinite? <==> bar.open == 0.0
    ensures r.Percent? ==> bar.open * (1.0 + r.value / 100.0) == bar.close
  {
    PctChange(bar.open, bar.close)
  }

  /** The two day changes are different measures: a gap between sessions shows only in the dashboard's. */
  lemma DayChangesDiffer()
    ensures var bars := [Bar(10.0, 10.0, 10.0, 10.0, 0.0), Bar(11.0, 11.0, 11.0, 11.0, 0.0)];
      DashboardChange(bars) == Percent(10.0) && SessionChange(bars[1]) == Percent(0.0)
  {
  }

  const Oversold: real := 30.0
  const Overbought: real := 70.0

  datatype Signal = Buy | Sell | Neutral
  {
    /** The label shown in the scanner's "Sinal" column. */
    function Label(): string
    {
      match this
      case Buy => "\U{1F7E2} COMPRA (Sobrevendido)"
      case Sell => "\U{1F534} VENDA (Sobrecomprado)"
      case Neutral => "Neutro"
    }
  }

  /**
    The scanner's signal. A NaN RSI fails both comparisons and stays
    "Neutro"; a saturated RSI is 100 and reads as a sale.
  */
  function Classify(rsi: Rsi): (s: Signal)
    ensures s == Buy <==> rsi.Numeric().Some? && rsi.Numeric().value < Oversold
    ensures s == Sell <==> rsi.Numeric().Some? && rsi.Numeric().value > Overbought
    ensures s == Neutral <==> rsi.Numeric().None? || Oversold <= rsi.Numeric().value <= Overbought
  {
    match rsi.Numeric()
    case None => Neutral
    case Some(v) => if v < Oversold then Buy else if v > Overbought then Sell else Neutral
  }

  /** The three labels are distinct, so the label determines the signal. */
  lemma LabelsDistinct(a: Signal, b: Signal)
    requires a.Label() == b.Label()
    ensures a == b
  {
  }

  /**
    With a full window the signal is a comparison of the two averages:
    buy exactly when 7 * gain < 3 * loss, sell exactly when 3 * gain > 7 * loss
    or there is no loss but some gain.
  */
  lemma {:induction false} SignalFromAverages(xs: seq<real>, t: nat)
    requires RsiWindow - 1 <= t < |xs|
    ensures AvgGain(xs, t).Some? && AvgLoss(xs, t).Some?
    ensures var g, l := AvgGain(xs, t).value, AvgLoss(xs, t).value;
      (Classify(RsiAt(xs, t)) == Buy <==> 7.0 * g < 3.0 * l)
      && (Classify(RsiAt(xs, t)) == Sell <==> 3.0 * g > 7.0 * l)
  {
    AveragesNonNegative(xs, t);
    var g, l := AvgGain(xs, t).value, AvgLoss(xs, t).value;
    if l > 0.0 {
      var v := RsiLevel(g, l);
      assert RsiAt(xs, t) == Level(v);
      var d := g + l;
      assert v == 100.0 * g / d;
      QuotientCompare(100.0 * g, d, 30.0);
      QuotientCompare(100.0 * g, d, 70.0);
    }
  }

  /** Comparing a quotient with a constant, for a positive divisor. */
  lemma QuotientCompare(a: real, d: real, c: real)
    requires 0.0 < d
    ensures a / d < c <==> a < c * d
    ensures a / d > c <==> a > c * d
  {
    assert a == (a / d) * d;
  }

  /**
    Trends over a full RSI window: a window that rises without falling reads
    as a sale, a flat one as neutral, one that falls without rising as a buy.
  */
  lemma SignalOfTrends(xs: seq<real>, t: nat)
    requires RsiWindow - 1 <= t < |xs|
    ensures NoFall(xs, t) && !NoRise(xs, t) ==> Classify(RsiAt(xs, t)) == Sell
    ensures NoFall(xs, t) && NoRise(xs, t) ==> Classify(RsiAt(xs, t)) == Neutral
    ensures !NoFall(xs, t) && NoRise(xs, t) ==> Classify(RsiAt(xs, t)) == Buy
  {
    RsiShape(xs, t);
  }
}
