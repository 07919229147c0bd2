/**
  The comparator page: every requested ticker whose history arrives becomes
  a column of `dados_comp`, its closes rescaled to base 100 at the first bar.
  Tickers the loader fails on are skipped; an empty history makes `iloc[0]`
  raise outside any `try`, which stops the page.
*/
module Comparator {
  import opened Wrappers
  import opened Ticker
  import opened Analysis

  /** `close / close[0] * 100` for every bar; a zero first close gives inf or NaN, here None. */
  function Base100(closes: seq<real>): (r: seq<Option<real>>)
    requires |closes| > 0
    ensures |r| == |closes|
    ensures closes[0] == 0.0 ==> forall k :: 0 <= k < |r| ==> r[k].None?
    ensures closes[0] != 0.0 ==> r[0] == Some(100.0)
    ensures closes[0] != 0.0 ==> forall k :: 0 <= k < |r| ==> r[k].Some? && r[k].value * closes[0] == closes[k] * 100.0
  {
    var base := closes[0];
    if base == 0.0 then seq(|closes|, k => None)
    else
      var r := seq(|closes|, k requires 0 <= k < |closes| => Some(closes[k] / base * 100.0));
      assert closes[0] / base == 1.0;
      assert forall k :: 0 <= k < |r| ==> r[k].value * base == closes[k] * 100.0 by {
        forall k | 0 <= k < |r| ensures r[k].value * base == closes[k] * 100.0 {
          assert closes[k] / base * base == closes[k];
        }
      }
      r
  }

  function Scale(closes: seq<real>, c: real): (r: seq<real>)
    ensures |r| == |closes| && forall k :: 0 <= k < |closes| ==> r[k] == c * closes[k]
  {
    seq(|closes|, k requires 0 <= k < |closes| => c * closes[k])
  }

  /** Two proportional price paths produce the same base-100 curve. */
  lemma Base100ScaleInvariant(closes: seq<real>, c: real)
    requires |closes| > 0 && c != 0.0
    ensures Base100(Scale(closes, c)) == Base100(closes)
  {
    var a, b := Base100(Scale(closes, c)), Base100(closes);
    forall k | 0 <= k < |closes| ensures a[k] == b[k] {
      if closes[0] != 0.0 {
        assert a[k].value * (c * closes[0]) == c * closes[k] * 100.0;
        assert b[k].value * closes[0] == closes[k] * 100.0;
        assert c * (a[k].value * closes[0]) == c * (b[k].value * closes[0]);
      }
    }
  }

  /** For a positive first close, the base-100 curve orders the bars as the closes do. */
  lemma Base100KeepsOrder(closes: seq<real>, j: nat, k: nat)
    requires j < |closes| && k < |closes| && 0.0 < closes[0]
    ensures Base100(closes)[j].value < Base100(closes)[k].value <==> closes[j] < closes[k]
  {
    var r := Base100(closes);
    var base := closes[0];
    assert r[j].value * base == closes[j] * 100.0;
    assert r[k].value * base == closes[k] * 100.0;
    assert r[k].value * base - r[j].value * base == (r[k].value - r[j].value) * base;
  }

  /** A column of `dados_comp`, named by the ticker as typed. */
  datatype Column = Column(name: string, values: seq<Option<real>>)

  /** The comparator's outcome: the table, or the ticker whose empty history stopped the page. */
  datatype Comparison = Chart(columns: seq<Column>) | Aborted(ticker: string)

  predicate HasColumn(cols: seq<Column>, name: string)
  {
    exists k :: 0 <= k < |cols| && cols[k].name == name
  }

  /**
    `dados_comp[name] = values`: replaces the column of that name where it
    stands, or appends a new one.
  */
  function SetColumn(cols: seq<Column>, name: string, values: seq<Option<real>>): (r: seq<Column>)
    ensures |cols| <= |r|
    ensures HasColumn(r, name)
    ensures forall k :: 0 <= k < |r| && r[k].name == name ==> r[k].values == values
    ensures forall k :: 0 <= k < |cols| && cols[k].name != name ==> r[k] == cols[k]
    ensures HasColumn(cols, name) ==> |r| == |cols|
    ensures !HasColumn(cols, name) ==> |r| == |cols| + 1 && r[..|cols|] == cols
    ensures forall k :: 0 <= k < |r| ==> r[k].name == name || (k < |cols| && r[k] == cols[k])
  {
    if HasColumn(cols, name) then
      var r := seq(|cols|, k requires 0 <= k < |cols| => if cols[k].name == name then Column(name, values) else cols[k]);
      assert HasColumn(r, name) by {
        var k :| 0 <= k < |cols| && cols[k].name == name;
        assert r[k].name == name;
      }
      r
    else
      var r := cols + [Column(name, values)];
      assert r[|cols|].name == name;
      r
  }

  /** The history the comparator requests for a ticker ("1y" of the normalized symbol). */
  function History(ticker: string, fetch: Fetcher): Option<seq<Bar>>
  {
    fetch(Normalize(ticker), DefaultPeriod)
  }

  /** The ticker whose history arrives empty, where `iloc[0]` raises. */
  predicate Crashes(ticker: string, fetch: Fetcher)
  {
    History(ticker, fetch).Some? && |History(ticker, fetch).value| == 0
  }

  /**
    The comparator over `tickers`, ticker by ticker. Only the close column of
    what `pegar_dados` returns is used, so the history stands for the loaded frame.
  */
  function Compare(tickers: seq<string>, fetch: Fetcher): (r: Comparison)
    ensures r.Chart? ==> |r.columns| <= |tickers|
    ensures r.Aborted? ==> r.ticker in tickers
    decreases |tickers|
  {
    if tickers == [] then Chart([])
    else
      match Compare(tickers[..|tickers| - 1], fetch)
      case Aborted(t) => Aborted(t)
      case Chart(cols) =>
        var t := tickers[|tickers| - 1];
        match History(t, fetch)
        case None => Chart(cols)
        case Some(bars) =>
          if |bars| == 0 then Aborted(t)
          else Chart(SetColumn(cols, t, Base100(Closes(bars))))
  }

  /** Once the page has stopped, later tickers change nothing. */
  lemma {:induction false} AbortPersists(tickers: seq<string>, i: nat, fetch: Fetcher)
    requires i <= |tickers| && Compare(tickers[..i], fetch).Aborted?
    ensures Compare(tickers, fetch) == Compare(tickers[..i], fetch)
    decreases |tickers| - i
  {
    if i < |tickers| {
      assert tickers[..i + 1][..i] == tickers[..i];
      AbortPersists(tickers, i + 1, fetch);
    } else {
      assert tickers[..i] == tickers;
    }
  }

  /** The loop of the comparator page, filling `dados_comp` column by column. */
  method CompareLoop(tickers: seq<string>, fetch: Fetcher) returns (result: Comparison)
    ensures result == Compare(tickers, fetch)
  {
    var cols: seq<Column> := [];
    for i := 0 to |tickers|
      invariant Compare(tickers[..i], fetch) == Chart(cols)
    {
      var t := tickers[i];
      assert tickers[..i + 1][..i] == tickers[..i];
      var loaded := Load(t, DefaultPeriod, fetch);
      if loaded.Some? {
        var closes := Closes(loaded.value.bars);
        if |closes| == 0 {
          AbortPersists(tickers, i + 1, fetch);
          return Aborted(t);
        }
        cols := SetColumn(cols, t, Base100(closes));
      }
    }
    assert tickers[..|tickers|] == tickers;
    result := Chart(cols);
  }

  /** Every column comes from a requested ticker whose history arrived, rescaled to base 100. */
  predicate ColumnsFromHistories(cols: seq<Column>, tickers: seq<string>, fetch: Fetcher)
  {
    forall k :: 0 <= k < |cols| ==>
      && cols[k].name in tickers
      && History(cols[k].name, fetch).Some?
      && |History(cols[k].name, fetch).value| > 0
      && cols[k].values == Base100(Closes(History(cols[k].name, fetch).value))
  }

  predicate DistinctNames(cols: seq<Column>)
  {
    forall j, k :: 0 <= j < k < |cols| ==> cols[j].name != cols[k].name
  }

  /** Every requested ticker whose history arrived has a column. */
  predicate CoversArrivals(cols: seq<Column>, tickers: seq<string>, fetch: Fetcher)
  {
    forall t :: t in tickers && History(t, fetch).Some? ==> HasColumn(cols, t)
  }

  /** What a finished comparison table holds, for the tickers asked for. */
  predicate TableOf(cols: seq<Column>, tickers: seq<string>, fetch: Fetcher)
  {
    ColumnsFromHistories(cols, tickers, fetch) && DistinctNames(cols) && CoversArrivals(cols, tickers, fetch)
  }

  lemma SetColumnKeepsDistinct(cols: seq<Column>, t: string, values: seq<Option<real>>)
    requires DistinctNames(cols)
    ensures DistinctNames(SetColumn(cols, t, values))
  {
    var r := SetColumn(cols, t, values);
    if !HasColumn(cols, t) {
      assert r == cols + [Column(t, values)];
    }
  }

  /** Loading one more ticker keeps the table well formed. */
  lemma SetColumnKeepsTable(cols: seq<Column>, init: seq<string>, t: string, fetch: Fetcher)
    requires TableOf(cols, init, fetch)
    requires History(t, fetch).Some? && |History(t, fetch).value| > 0
    ensures TableOf(SetColumn(cols, t, Base100(Closes(History(t, fetch).value))), init + [t], fetch)
  {
    var r := SetColumn(cols, t, Base100(Closes(History(t, fetch).value)));
    var tickers := init + [t];
    SetColumnKeepsDistinct(cols, t, Base100(Closes(History(t, fetch).value)));
    forall k | 0 <= k < |r| ensures r[k].name in tickers {
    }
    forall u | u in tickers && History(u, fetch).Some? ensures HasColumn(r, u)
    {
      if u != t {
        assert u in init;
        var k :| 0 <= k < |cols| && cols[k].name == u;
        assert r[k] == cols[k];
      }
    }
  }

  /**
    A comparison that completes has one column per distinct ticker whose
    history arrived, holding that history at base 100; failed tickers have no
    column.
  */
  lemma {:induction false} CompareBuildsTable(tickers: seq<string>, fetch: Fetcher)
    requires Compare(tickers, fetch).Chart?
    ensures TableOf(Compare(tickers, fetch).columns, tickers, fetch)
    decreases |tickers|
  {
    if tickers != [] {
      var init := tickers[..|tickers| - 1];
      var t := tickers[|tickers| - 1];
      assert tickers == init + [t];
      CompareBuildsTable(init, fetch);
      var cols := Compare(init, fetch).columns;
      if History(t, fetch).Some? {
        SetColumnKeepsTable(cols, init, t, fetch);
      } else {
        assert Compare(tickers, fetch).columns == cols;
      }
    }
  }

  /** The page stops exactly when some requested ticker's history arrives empty, and it names such a ticker. */
  lemma {:induction false} CompareAbortsIff(tickers: seq<string>, fetch: Fetcher)
    ensures Compare(tickers, fetch).Aborted? <==> exists k :: 0 <= k < |tickers| && Crashes(tickers[k], fetch)
    ensures Compare(tickers, fetch).Aborted? ==>
      Compare(tickers, fetch).ticker in tickers && Crashes(Compare(tickers, fetch).ticker, fetch)
    decreases |tickers|
  {
    if tickers != [] {
      var init := tickers[..|tickers| - 1];
      CompareAbortsIff(init, fetch);
      if exists k :: 0 <= k < |init| && Crashes(init[k], fetch) {
        var k :| 0 <= k < |init| && Crashes(init[k], fetch);
        assert tickers[k] == init[k];
      }
      if exists k :: 0 <= k < |tickers| && Crashes(tickers[k], fetch) {
        var k :| 0 <= k < |tickers| && Crashes(tickers[k], fetch);
        if k < |init| { assert init[k] == tickers[k]; }
      }
    }
  }

  /**
    As written, every call of `pegar_dados` fails (see `LoadAsWritten`): the
    comparison it performs is the one against a provider that never answers,
    whose table is empty, so no chart is drawn.
  */
  lemma {:induction false} CompareAsWrittenIsEmpty(tickers: seq<string>)
    ensures Compare(tickers, NoData) == Chart([])
    decreases |tickers|
  {
    if tickers != [] {
      CompareAsWrittenIsEmpty(tickers[..|tickers| - 1]);
    }
  }
}
