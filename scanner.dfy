/**
  `scanner_mercado`: runs the loader over an ordered basket of tickers,
  keeps one row per ticker whose history arrived and is not empty, silently
  skips every other ticker, and feeds the progress bar after each ticker.
*/
module Scanner {
  import opened Wrappers
  import opened Ticker
  import opened Indicators
  import opened Analysis

  /** One line of the scanner's table. */
  datatype ScanRow = ScanRow(ticker: string, price: real, dayChange: DayChange, rsi: Rsi, signal: Signal)

  /** The ticker yields a row: the provider answered the "3mo" request with at least one bar. */
  predicate Succeeds(ticker: string, fetch: Fetcher)
  {
    var h := fetch(Normalize(ticker), ScanPeriod);
    h.Some? && |h.value| > 0
  }

  /** The body of the `try` for one ticker: None when the ticker is skipped. */
  function RowFor(ticker: string, fetch: Fetcher): (r: Option<ScanRow>)
    ensures r.Some? <==> Succeeds(ticker, fetch)
    ensures r.Some? ==> r.value.ticker == ticker
  {
    match Load(ticker, ScanPeriod, fetch)
    case None => None
    case Some(f) =>
      if |f.bars| == 0 then None
      else
        var last := f.bars[|f.bars| - 1];
        var rsi := f.rsi[|f.bars| - 1];
        Some(ScanRow(ticker, last.close, SessionChange(last), rsi, Classify(rsi)))
  }

  /**
    A row reports the last bar of the history: its close, its session change,
    its RSI cell and the signal that RSI gives.
  */
  lemma RowContents(ticker: string, fetch: Fetcher)
    requires Succeeds(ticker, fetch)
    ensures var bars := fetch(Normalize(ticker), ScanPeriod).value;
      var row := RowFor(ticker, fetch).value;
      && row.price == bars[|bars| - 1].close
      && row.dayChange == SessionChange(bars[|bars| - 1])
      && row.rsi == RsiAt(Closes(bars), |bars| - 1)
      && row.signal == Classify(row.rsi)
  {
  }

  /** The rows of a scan of `tickers`, in basket order. */
  function ScanRows(tickers: seq<string>, fetch: Fetcher): (r: seq<ScanRow>)
    ensures |r| <= |tickers|
    decreases |tickers|
  {
    if tickers == [] then []
    else
      var rest := ScanRows(tickers[..|tickers| - 1], fetch);
      match RowFor(tickers[|tickers| - 1], fetch)
      case None => rest
      case Some(row) => rest + [row]
  }

  /** Fraction handed to the progress bar after the ticker at index i. */
  function Progress(i: nat, total: nat): real
    requires i < total
  {
    (i + 1) as real / total as real
  }

  /** The scan itself: the loop of `scanner_mercado`. */
  method Scan(tickers: seq<string>, fetch: Fetcher) returns (rows: seq<ScanRow>, progress: seq<real>)
    ensures rows == ScanRows(tickers, fetch)
    ensures |progress| == |tickers|
    ensures forall i :: 0 <= i < |progress| ==> progress[i] == Progress(i, |tickers|)
    ensures forall i :: 0 <= i < |progress| ==> 0.0 < progress[i] <= 1.0
    ensures forall i, j :: 0 <= i < j < |progress| ==> progress[i] < progress[j]
    ensures |tickers| > 0 ==> progress[|tickers| - 1] == 1.0
  {
    rows, progress := [], [];
    var total := |tickers|;
    for i := 0 to total
      invariant rows == ScanRows(tickers[..i], fetch)
      invariant |progress| == i
      invariant forall k :: 0 <= k < i ==> progress[k] == Progress(k, total)
    {
      assert tickers[..i + 1][..i] == tickers[..i];
      var row := RowFor(tickers[i], fetch);
      if row.Some? {
        rows := rows + [row.value];
      }
      progress := progress + [Progress(i, total)];
    }
    assert tickers[..total] == tickers;
    forall i, j | 0 <= i < j < |progress| ensures progress[i] < progress[j] {
      ProgressIncreases(i, j, total);
    }
    forall i | 0 <= i < |progress| ensures 0.0 < progress[i] <= 1.0 {
      ProgressIncreases(i, total - 1, total);
    }
  }

  lemma ProgressIncreases(i: nat, j: nat, total: nat)
    requires i <= j < total
    ensures i < j ==> Progress(i, total) < Progress(j, total)
    ensures 0.0 < Progress(i, total) <= Progress(j, total)
    ensures j == total - 1 ==> Progress(j, total) == 1.0
  {
    var n := total as real;
    DivideByPositive((i + 1) as real, (j + 1) as real, n);
    if j == total - 1 {
      DivideByPositive(n, n, n);
    }
  }

  /** Dividing by a positive number keeps the order of the dividends. */
  lemma DivideByPositive(a: real, b: real, n: real)
    requires 0.0 < a <= b && 0.0 < n
    ensures 0.0 < a / n <= b / n
    ensures a < b ==> a / n < b / n
    ensures a == n ==> a / n == 1.0
  {
    var x, y := a / n, b / n;
    assert x * n == a && y * n == b;
    assert (y - x) * n == b - a;
    SignOfFactor(x, n);
    SignOfFactor(y - x, n);
  }

  lemma SignOfFactor(p: real, n: real)
    requires 0.0 < n
    ensures p * n >= 0.0 ==> p >= 0.0
    ensures p * n > 0.0 ==> p > 0.0
  {
    if p < 0.0 {
      assert (-p) * n > 0.0;
    }
  }

  /** Scanning two baskets one after the other gives the rows of both, in order. */
  lemma {:induction false} ScanRowsConcat(a: seq<string>, b: seq<string>, fetch: Fetcher)
    ensures ScanRows(a + b, fetch) == ScanRows(a, fetch) + ScanRows(b, fetch)
    decreases |b|
  {
    if b == [] {
      assert a + b == a;
    } else {
      var b' := b[..|b| - 1];
      assert (a + b)[..|a + b| - 1] == a + b';
      ScanRowsConcat(a, b', fetch);
    }
  }

  function Names(rows: seq<ScanRow>): (r: seq<string>)
    ensures |r| == |rows| && forall i :: 0 <= i < |rows| ==> r[i] == rows[i].ticker
  {
    seq(|rows|, i requires 0 <= i < |rows| => rows[i].ticker)
  }

  lemma NamesConcat(a: seq<ScanRow>, b: seq<ScanRow>)
    ensures Names(a + b) == Names(a) + Names(b)
  {
  }

  /** A one-ticker basket gives that ticker's row, or nothing. */
  lemma ScanOfOne(t: string, fetch: Fetcher)
    ensures Names(ScanRows([t], fetch)) == if Succeeds(t, fetch) then [t] else []
  {
    assert [t][..0] == [];
  }

  /** The tickers that succeed, in basket order (taken from the front). */
  function Survivors(tickers: seq<string>, fetch: Fetcher): seq<string>
  {
    if tickers == [] then []
    else (if Succeeds(tickers[0], fetch) then [tickers[0]] else []) + Survivors(tickers[1..], fetch)
  }

  /**
    The scan's rows are exactly the tickers that succeed, in their original
    relative order: a failing ticker is dropped and the others are unaffected.
  */
  lemma {:induction false} ScanKeepsSurvivorsInOrder(tickers: seq<string>, fetch: Fetcher)
    ensures Names(ScanRows(tickers, fetch)) == Survivors(tickers, fetch)
    decreases |tickers|
  {
    if tickers != [] {
      var first, rest := tickers[0], tickers[1..];
      assert tickers == [first] + rest;
      ScanRowsConcat([first], rest, fetch);
      ScanKeepsSurvivorsInOrder(rest, fetch);
      var head, tail := ScanRows([first], fetch), ScanRows(rest, fetch);
      ScanOfOne(first, fetch);
      NamesConcat(head, tail);
    }
  }

  /** A basket never yields more rows than tickers, and all of them exactly when every ticker succeeds. */
  lemma {:induction false} ScanRowCount(tickers: seq<string>, fetch: Fetcher)
    ensures |ScanRows(tickers, fetch)| <= |tickers|
    ensures |ScanRows(tickers, fetch)| == |tickers| <==> forall i :: 0 <= i < |tickers| ==> Succeeds(tickers[i], fetch)
    decreases |tickers|
  {
    if tickers != [] {
      var init := tickers[..|tickers| - 1];
      ScanRowCount(init, fetch);
      assert forall i :: 0 <= i < |init| ==> init[i] == tickers[i];
    }
  }

  /** A ticker has a row exactly when it is in the basket and succeeds. */
  lemma {:induction false} ScanMembership(tickers: seq<string>, fetch: Fetcher, t: string)
    ensures t in Names(ScanRows(tickers, fetch)) <==> t in tickers && Succeeds(t, fetch)
    decreases |tickers|
  {
    if tickers != [] {
      var init := tickers[..|tickers| - 1];
      ScanMembership(init, fetch, t);
      assert tickers == init + [tickers[|tickers| - 1]];
      var rest := ScanRows(init, fetch);
      match RowFor(tickers[|tickers| - 1], fetch)
      case None =>
      case Some(row) =>
        assert Names(rest + [row]) == Names(rest) + [row.ticker];
    }
  }

  /** Basket ["AAA", "BBB", "CCC"] where only "BBB" fails gives exactly the rows of "AAA" and "CCC". */
  lemma SkipsFailingTicker(fetch: Fetcher)
    requires Succeeds("AAA", fetch) && !Succeeds("BBB", fetch) && Succeeds("CCC", fetch)
    ensures Names(ScanRows(["AAA", "BBB", "CCC"], fetch)) == ["AAA", "CCC"]
  {
    ScanKeepsSurvivorsInOrder(["AAA", "BBB", "CCC"], fetch);
    assert ["AAA", "BBB", "CCC"][1..] == ["BBB", "CCC"];
    assert ["BBB", "CCC"][1..] == ["CCC"];
    assert ["CCC"][1..] == [];
  }

  /**
    As written, every call of `pegar_dados` fails (see `LoadAsWritten`): the
    scan it performs is the scan against a provider that never answers, and
    that scan is always empty.
  */
  lemma {:induction false} ScanAsWrittenIsEmpty(tickers: seq<string>)
    ensures ScanRows(tickers, NoData) == []
    decreases |tickers|
  {
    if tickers != [] {
      ScanAsWrittenIsEmpty(tickers[..|tickers| - 1]);
    }
  }
}
