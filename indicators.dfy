/**
  The indicator columns that `pegar_dados` adds to a price history: the
  trailing simple moving averages SMA_20 and SMA_50 of the close, and the
  14-bar RSI built from the day-to-day differences of the close.
  A column cell that pandas leaves as NaN is `None` here.
*/
module Indicators {
  import opened Wrappers
  import opened Series

  const ShortWindow: nat := 20
  const LongWindow: nat := 50
  const RsiWindow: nat := 14

  /** The trailing window of `w` elements ending at index `i`. */
  function Window(xs: seq<real>, w: nat, i: nat): seq<real>
    requires 1 <= w && w - 1 <= i < |xs|
  {
    xs[i - w + 1..i + 1]
  }

  /**
    `rolling(window=w).mean()` at index `i`: NaN while fewer than `w`
    elements are available, then the mean of the trailing window.
  */
  function Sma(xs: seq<real>, w: nat, i: nat): (r: Option<real>)
    requires 1 <= w && i < |xs|
    ensures r.Some? <==> w - 1 <= i
    ensures r.Some? ==> |Window(xs, w, i)| == w && r.value == Mean(Window(xs, w, i))
  {
    if i < w - 1 then None else Some(Mean(Window(xs, w, i)))
  }

  /** The whole rolling-mean column. */
  function SmaColumn(xs: seq<real>, w: nat): (r: seq<Option<real>>)
    requires 1 <= w
    ensures |r| == |xs|
    ensures forall i :: 0 <= i < |xs| ==> r[i] == Sma(xs, w, i)
  {
    seq(|xs|, i requires 0 <= i < |xs| => Sma(xs, w, i))
  }

  /** The moving average stays within the range of the closes it averages. */
  lemma SmaWithinRange(xs: seq<real>, w: nat, i: nat, lo: real, hi: real)
    requires 1 <= w && w - 1 <= i < |xs|
    requires forall k :: i - w + 1 <= k <= i ==> lo <= xs[k] <= hi
    ensures Sma(xs, w, i).Some?
    ensures lo <= Sma(xs, w, i).value <= hi
  {
    var win := Window(xs, w, i);
    forall k | 0 <= k < |win| ensures lo <= win[k] <= hi {
      assert win[k] == xs[i - w + 1 + k];
    }
    MeanBounds(win, lo, hi);
  }

  /**
    Consecutive moving averages differ by the element entering the window
    minus the element leaving it, over the window length.
  */
  lemma SmaStep(xs: seq<real>, w: nat, i: nat)
    requires 1 <= w <= i < |xs|
    ensures Sma(xs, w, i).Some? && Sma(xs, w, i - 1).Some?
    ensures Sma(xs, w, i).value == Sma(xs, w, i - 1).value + (xs[i] - xs[i - w]) / w as real
  {
    var prev, cur := Window(xs, w, i - 1), Window(xs, w, i);
    assert prev + [xs[i]] == [xs[i - w]] + cur;
    SumConcat(prev, [xs[i]]);
    SumConcat([xs[i - w]], cur);
    assert Sum([xs[i]]) == xs[i];
    assert Sum([xs[i - w]]) == xs[i - w];
    var n := w as real;
    assert Sum(cur) == Sum(prev) + xs[i] - xs[i - w];
    assert Sum(cur) / n == Sum(prev) / n + (xs[i] - xs[i - w]) / n;
  }

  /**
    `diff()` at bar t: NaN on the first bar, then the change from the
    previous close.
  */
  function Delta(xs: seq<real>, t: nat): (r: Option<real>)
    requires t < |xs|
    ensures r.Some? <==> t > 0
    ensures r.Some? ==> r.value == xs[t] - xs[t - 1]
  {
    if t == 0 then None else Some(xs[t] - xs[t - 1])
  }

  /**
    `delta.where(delta > 0, 0)`: the rise at bar t, or 0. The NaN of the first
    bar fails the test `> 0`, so it is replaced by 0 as well.
  */
  function Gain(xs: seq<real>, t: nat): (r: real)
    requires t < |xs|
    ensures 0.0 <= r
    ensures t > 0 ==> xs[t] - xs[t - 1] <= r
    ensures r == 0.0 || (t > 0 && r == xs[t] - xs[t - 1])
  {
    match Delta(xs, t)
    case Some(d) => if d > 0.0 then d else 0.0
    case None => 0.0
  }

  /** `-delta.where(delta < 0, 0)`: the fall at bar t, or 0 (also on the first bar). */
  function Loss(xs: seq<real>, t: nat): (r: real)
    requires t < |xs|
    ensures 0.0 <= r
    ensures t > 0 ==> xs[t - 1] - xs[t] <= r
    ensures r == 0.0 || (t > 0 && r == xs[t - 1] - xs[t])
  {
    match Delta(xs, t)
    case Some(d) => if d < 0.0 then -d else 0.0
    case None => 0.0
  }

  /** Gain and loss split each difference: at most one is non-zero and their difference is the move. */
  lemma GainLossSplit(xs: seq<real>, t: nat)
    requires 0 < t < |xs|
    ensures Gain(xs, t) - Loss(xs, t) == xs[t] - xs[t - 1]
    ensures Gain(xs, t) == 0.0 || Loss(xs, t) == 0.0
  {
  }

  function Gains(xs: seq<real>): (r: seq<real>)
    ensures |r| == |xs| && forall t :: 0 <= t < |xs| ==> r[t] == Gain(xs, t)
  {
    seq(|xs|, t requires 0 <= t < |xs| => Gain(xs, t))
  }

  function Losses(xs: seq<real>): (r: seq<real>)
    ensures |r| == |xs| && forall t :: 0 <= t < |xs| ==> r[t] == Loss(xs, t)
  {
    seq(|xs|, t requires 0 <= t < |xs| => Loss(xs, t))
  }

  /**
    The RSI cell of one bar, with pandas' non-finite outcomes made explicit:
    Warmup is the NaN of an incomplete rolling window, Indeterminate the NaN of
    0/0 (a flat window), Saturated the value 100 that `gain/0 = inf` produces.
  */
  datatype Rsi = Warmup | Indeterminate | Saturated | Level(value: real)
  {
    /** The float the cell holds: None for NaN. */
    function Numeric(): Option<real>
    {
      match this
      case Warmup => None
      case Indeterminate => None
      case Saturated => Some(100.0)
      case Level(v) => Some(v)
    }
  }

  /** `100 - 100 / (1 + rs)` with `rs = g / l` for a positive average loss. */
  function RsiLevel(g: real, l: real): (r: real)
    requires 0.0 <= g && 0.0 < l
    ensures 0.0 <= r < 100.0
    ensures r == 100.0 * g / (g + l)
  {
    var rs := g / l;
    assert rs * l == g;
    assert (1.0 + rs) * l == l + g;
    assert 100.0 / (1.0 + rs) == 100.0 * l / (g + l);
    assert 100.0 * l / (g + l) + 100.0 * g / (g + l) == 100.0;
    100.0 - 100.0 / (1.0 + rs)
  }

  /** Average gain over the 14-bar window ending at bar t. */
  function AvgGain(xs: seq<real>, t: nat): Option<real>
    requires t < |xs|
  {
    Sma(Gains(xs), RsiWindow, t)
  }

  /** Average loss over the 14-bar window ending at bar t. */
  function AvgLoss(xs: seq<real>, t: nat): Option<real>
    requires t < |xs|
  {
    Sma(Losses(xs), RsiWindow, t)
  }

  lemma AveragesNonNegative(xs: seq<real>, t: nat)
    requires RsiWindow - 1 <= t < |xs|
    ensures AvgGain(xs, t).Some? && 0.0 <= AvgGain(xs, t).value
    ensures AvgLoss(xs, t).Some? && 0.0 <= AvgLoss(xs, t).value
  {
    var gs, ls := Gains(xs), Losses(xs);
    SumZeroIff(Window(gs, RsiWindow, t));
    SumZeroIff(Window(ls, RsiWindow, t));
  }

  /** The RSI cell of bar t. */
  function RsiAt(xs: seq<real>, t: nat): (r: Rsi)
    requires t < |xs|
    ensures r.Warmup? <==> t < RsiWindow - 1
    ensures r.Level? ==> 0.0 <= r.value < 100.0
    ensures r.Numeric().Some? ==> 0.0 <= r.Numeric().value <= 100.0
  {
    if t < RsiWindow - 1 then Warmup
    else
      AveragesNonNegative(xs, t);
      var g, l := AvgGain(xs, t).value, AvgLoss(xs, t).value;
      if l > 0.0 then Level(RsiLevel(g, l))
      else if g > 0.0 then Saturated
      else Indeterminate
  }

  /**
    The value of a full-window RSI cell from the two 14-bar averages:
    100 * g / (g + l) for a positive average loss, 100 for a zero loss and a
    positive gain, 0/0 when both are zero.
  */
  lemma RsiValue(xs: seq<real>, t: nat)
    requires RsiWindow - 1 <= t < |xs|
    ensures AvgGain(xs, t).Some? && AvgLoss(xs, t).Some?
    ensures var g, l := AvgGain(xs, t).value, AvgLoss(xs, t).value;
      && 0.0 <= g && 0.0 <= l
      && (0.0 < l ==> RsiAt(xs, t) == Level(100.0 * g / (g + l)))
      && (l == 0.0 && 0.0 < g ==> RsiAt(xs, t) == Saturated)
      && (l == 0.0 && g == 0.0 ==> RsiAt(xs, t) == Indeterminate)
  {
    AveragesNonNegative(xs, t);
  }

  function RsiColumn(xs: seq<real>): (r: seq<Rsi>)
    ensures |r| == |xs|
    ensures forall t :: 0 <= t < |xs| ==> r[t] == RsiAt(xs, t)
  {
    seq(|xs|, t requires 0 <= t < |xs| => RsiAt(xs, t))
  }

  /** No close in the RSI window ending at bar t is below the one before it. */
  predicate NoFall(xs: seq<real>, t: nat)
    requires t < |xs|
  {
    forall k :: t - RsiWindow + 1 <= k <= t && 1 <= k ==> xs[k - 1] <= xs[k]
  }

  /** No close in the RSI window ending at bar t is above the one before it. */
  predicate NoRise(xs: seq<real>, t: nat)
    requires t < |xs|
  {
    forall k :: t - RsiWindow + 1 <= k <= t && 1 <= k ==> xs[k] <= xs[k - 1]
  }

  /** The average loss is zero exactly when the window has no fall. */
  lemma AvgLossZeroIff(xs: seq<real>, t: nat)
    requires RsiWindow - 1 <= t < |xs|
    ensures AvgLoss(xs, t).Some?
    ensures AvgLoss(xs, t).value == 0.0 <==> NoFall(xs, t)
  {
    var lo := t - RsiWindow + 1;
    var win := Window(Losses(xs), RsiWindow, t);
    SumZeroIff(win);
    if NoFall(xs, t) {
      forall j | 0 <= j < |win| ensures win[j] == 0.0 {
        assert win[j] == Loss(xs, lo + j);
        if lo + j >= 1 { assert xs[lo + j - 1] <= xs[lo + j]; }
      }
    }
    if AvgLoss(xs, t).value == 0.0 {
      forall k | lo <= k <= t && 1 <= k ensures xs[k - 1] <= xs[k] {
        assert win[k - lo] == Loss(xs, k);
      }
    }
  }

  /** The average gain is zero exactly when the window has no rise. */
  lemma AvgGainZeroIff(xs: seq<real>, t: nat)
    requires RsiWindow - 1 <= t < |xs|
    ensures AvgGain(xs, t).Some?
    ensures AvgGain(xs, t).value == 0.0 <==> NoRise(xs, t)
  {
    var lo := t - RsiWindow + 1;
    var win := Window(Gains(xs), RsiWindow, t);
    SumZeroIff(win);
    if NoRise(xs, t) {
      forall j | 0 <= j < |win| ensures win[j] == 0.0 {
        assert win[j] == Gain(xs, lo + j);
        if lo + j >= 1 { assert xs[lo + j] <= xs[lo + j - 1]; }
      }
    }
    if AvgGain(xs, t).value == 0.0 {
      forall k | lo <= k <= t && 1 <= k ensures xs[k] <= xs[k - 1] {
        assert win[k - lo] == Gain(xs, k);
      }
    }
  }

  /**
    Once the window is full, the RSI saturates at 100 exactly when the
    window rises without falling, is 0/0 exactly when it is flat, and is 0
    exactly when it falls without rising.
  */
  lemma RsiShape(xs: seq<real>, t: nat)
    requires RsiWindow - 1 <= t < |xs|
    ensures RsiAt(xs, t).Saturated? <==> NoFall(xs, t) && !NoRise(xs, t)
    ensures RsiAt(xs, t).Indeterminate? <==> NoFall(xs, t) && NoRise(xs, t)
    ensures RsiAt(xs, t) == Level(0.0) <==> !NoFall(xs, t) && NoRise(xs, t)
  {
    AvgLossZeroIff(xs, t);
    AvgGainZeroIff(xs, t);
    AveragesNonNegative(xs, t);
  }
}
