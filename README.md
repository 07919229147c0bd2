# BrBull Pro terminal — computation core in Dafny

This project models the computation layer of the BrBull Pro Streamlit app
(`app.py`), a technical-analysis terminal for São Paulo exchange equities:

- **Ticker normalisation** (`pegar_dados`): ".SA" is appended unless the symbol
  already ends with it (module `Ticker`).
- **Indicator engine** (`pegar_dados`): trailing simple moving averages over 20
  and 50 bars and the 14-bar RSI. The model works over exact reals. Every NaN cell
  of a pandas column is explicit: `Option<real>` for the moving averages, and the
  datatype `Rsi` (`Warmup`, `Indeterminate`, `Saturated`, `Level`) for the RSI
  (modules `Series`, `Indicators`).
- **Single asset** (module `Analysis`): the loader over an abstract market-data
  provider, the dashboard's day change (last close against previous close), the
  scanner's day change (close against the same bar's open) and the signal
  thresholds 30 and 70.
- **Basket scanner** (`scanner_mercado`, module `Scanner`): a loop over the
  basket that keeps the tickers whose history arrived non-empty, in basket order,
  and records the fraction handed to the progress bar after each ticker.
- **Comparator** (module `Comparator`): the loop that rescales every loaded
  close series to base 100 and stores it as a column named by the typed ticker.

Pandas behaviours the model reproduces:

- `diff()` leaves the first bar NaN. `delta.where(delta > 0, 0)` replaces that
  NaN by 0, because NaN fails the comparison, and so does the loss expression.
  The 14-bar rolling means are therefore defined from bar 13 on. The first RSI
  averages 13 real differences and one synthetic zero.
- A zero average loss makes `gain / loss` infinite and the RSI exactly 100
  (`Saturated`). A zero average gain over it as well gives 0/0, a NaN
  (`Indeterminate`). A NaN RSI fails both `< 30` and `> 70`, so its signal is
  "Neutro".
- A division by a zero open, previous close or first close does not raise in
  numpy; it yields inf or NaN, modelled as `NonFinite` / `None`.

Source behaviours the model keeps as written:

- The suffix rule tests only for ".SA", so "^BVSP" becomes "^BVSP.SA".
- A flat RSI window gives 0/0, a NaN (`Indeterminate`), whose signal is "Neutro".
- On a history shorter than two bars the dashboard's `iloc[-2]` (or `iloc[-1]`)
  raises an uncaught IndexError (`DashboardView.IndexError`).
- The scanner skips only a failed or empty history. A one-bar history still gives
  a row, with a `Warmup` RSI.
- The comparator's `iloc[0]` on an empty history is outside any `try`, so it stops
  the page (`Comparison.Aborted`).

The provider (yfinance: history plus `stock.info`) is the parameter
`fetch: (symbol, period) -> Option<seq<Bar>>`. `None` stands for any failure of
the request. A successful answer may hold no bars.

## Model

| member | source | states |
|---|---|---|
| `Ticker.NormalizeSpec` | app.py:30-31 | the fetched symbol ends with ".SA" and starts with the typed one; it equals the input exactly when the input already ends with ".SA", otherwise it is the input followed by ".SA" |
| `Ticker.NormalizeIdempotent` | app.py:30-31 | normalising twice equals normalising once |
| `Ticker.IndexSymbolGetsSuffix` | app.py:30-31 | only the literal ".SA" is recognised: "^BVSP" becomes "^BVSP.SA", "PETR4" becomes "PETR4.SA", "PETR4.SA" is kept |
| `Indicators.Sma` | app.py:38-39 | the rolling mean at index i is defined exactly when i >= w-1, and then is the arithmetic mean of the w trailing closes |
| `Indicators.SmaColumn` | app.py:38-39 | the SMA column is aligned 1:1 with the bars |
| `Indicators.SmaWithinRange` | app.py:38-39 | a moving average lies between any lower and upper bound of the closes in its window (a constant window gives that constant) |
| `Indicators.SmaStep` | app.py:38-39 | consecutive moving averages differ by (entering close - leaving close) / w |
| `Indicators.Delta` | app.py:42 | `diff()` is undefined exactly on the first bar, and elsewhere is the close minus the previous close |
| `Indicators.Gain` | app.py:43 | the gain is non-negative, at least the difference, and either 0 or the difference: max(delta, 0), and 0 on the first bar |
| `Indicators.Loss` | app.py:44 | the loss is non-negative, at least the negated difference, and either 0 or the fall: max(-delta, 0), and 0 on the first bar |
| `Indicators.GainLossSplit` | app.py:42-44 | gain - loss equals the close difference and at most one of them is non-zero |
| `Indicators.AveragesNonNegative` | app.py:43-44 | from bar 13 on both 14-bar averages are defined and non-negative |
| `Indicators.RsiLevel` | app.py:45-46 | for a positive average loss, 100 - 100/(1 + g/l) equals 100g/(g+l) and lies in [0, 100) |
| `Indicators.RsiAt` | app.py:42-46 | the RSI is in warm-up exactly before bar 13; a numeric RSI lies in [0, 100], a finite-ratio one in [0, 100) |
| `Indicators.RsiValue` | app.py:43-46 | with a full window both averages are defined and non-negative; a positive average loss gives `Level(100g/(g+l))`, a zero loss with a positive gain gives `Saturated` (100), both zero give `Indeterminate` (NaN) |
| `Indicators.RsiColumn` | app.py:46 | the RSI column is aligned 1:1 with the bars |
| `Indicators.AvgLossZeroIff` | app.py:44 | the average loss is zero exactly when no close in the window falls |
| `Indicators.AvgGainZeroIff` | app.py:43 | the average gain is zero exactly when no close in the window rises |
| `Indicators.RsiShape` | app.py:43-46 | with a full window: saturated at 100 iff the window rises without falling; 0/0 iff flat; exactly 0 iff it falls without rising |
| `Analysis.Analyse` | app.py:38-46 | the analysed frame keeps the bars and carries SMA_20, SMA_50 and RSI aligned with them |
| `Analysis.Load` | app.py:29-48 | the loader succeeds exactly when the provider answers for the normalised symbol and period, and keeps that history |
| `Analysis.LoadAsWritten` | app.py:32-50 | as written the loader behaves as with a provider that never answers |
| `Analysis.AsWrittenLoadDiscardsData` | app.py:34 | when the provider answers, the loader as written still returns nothing and the intended one returns the frame |
| `Analysis.PctChange` | app.py:104 | the change is non-finite exactly for a zero base; otherwise base * (1 + change/100) recovers the new price, and for a positive base the change's sign is the direction of the move |
| `Analysis.DashboardChange` | app.py:102-104 | fewer than two bars cannot be measured; a zero previous close is non-finite; otherwise applying the change to the previous close gives the last close |
| `Analysis.Dashboard` | app.py:98-104 | "asset not found" iff the loader fails; IndexError iff the history has fewer than two bars; otherwise the last close and the dashboard day change of the fetched history |
| `Analysis.SessionChange` | app.py:64 | the scanner's change measures the last bar's close against its own open, non-finite exactly for a zero open |
| `Analysis.DayChangesDiffer` | app.py:64 | an overnight move shows in the dashboard change (+10%) but not in the session change (0%) |
| `Analysis.Classify` | app.py:66-68 | buy iff the RSI is a number below 30; sell iff above 70; "Neutro" iff NaN or within [30, 70] |
| `Analysis.LabelsDistinct` | app.py:66-68 | the three signal labels are pairwise distinct |
| `Analysis.SignalFromAverages` | app.py:45-68 | with a full window: buy iff 7 * avg gain < 3 * avg loss; sell iff 3 * avg gain > 7 * avg loss |
| `Analysis.SignalOfTrends` | app.py:42-68 | a window that only rises reads as a sale, a flat one as "Neutro", one that only falls as a buy |
| `Scanner.RowFor` | app.py:59-76 | a ticker yields a row exactly when its "3mo" history arrives non-empty; the row carries the ticker as typed |
| `Scanner.RowContents` | app.py:62-75 | a row holds the last close, the last bar's session change, the last RSI cell and its signal |
| `Scanner.ScanRows` | app.py:58-78 | the rows of a scan, one per succeeding ticker in basket order; never more rows than tickers |
| `Scanner.Scan` | app.py:52-82 | the loop returns the rows of `ScanRows`; the i-th progress value is (i+1)/total, so the values are in (0, 1], strictly increasing, and the last is 1 |
| `Scanner.ProgressIncreases` | app.py:79 | (i+1)/total is positive, increases with i and equals 1 for the last ticker |
| `Scanner.ScanRowsConcat` | app.py:58-78 | scanning a + b gives the rows of a followed by the rows of b: no ticker affects another's row |
| `Scanner.ScanKeepsSurvivorsInOrder` | app.py:58-78 | the row tickers are exactly the succeeding tickers in basket order |
| `Scanner.ScanRowCount` | app.py:58-78 | a scan never yields more rows than tickers, and as many exactly when every ticker succeeds |
| `Scanner.ScanMembership` | app.py:58-78 | a ticker has a row iff it is in the basket and succeeds |
| `Scanner.SkipsFailingTicker` | app.py:58-78 | ["AAA", "BBB", "CCC"] with only "BBB" failing yields rows for "AAA" and "CCC", in that order |
| `Scanner.ScanAsWrittenIsEmpty` | app.py:60 | with the loader as written (a provider that never answers) every scan is empty |
| `Comparator.Base100` | app.py:188 | the normalised first value is exactly 100; every value times the first close gives 100 times the close; a zero first close makes every value non-finite |
| `Comparator.Base100ScaleInvariant` | app.py:188 | two proportional price paths have the same base-100 curve |
| `Comparator.Base100KeepsOrder` | app.py:188 | for a positive first close, the curve orders bars exactly as the closes do |
| `Comparator.SetColumn` | app.py:188 | assigning a column replaces an existing one of that name in place or appends a new one, leaving the others unchanged |
| `Comparator.SetColumnKeepsTable` | app.py:188 | storing one more loaded ticker keeps the table well formed for the longer ticker list |
| `Comparator.Compare` | app.py:183-188 | the comparison ticker by ticker: a completed table has at most one column per ticker, and an aborted one names a requested ticker |
| `Comparator.CompareLoop` | app.py:183-188 | the loop computes `Compare`: columns in order, stopping at the first empty history |
| `Comparator.AbortPersists` | app.py:184-188 | once the page has stopped, later tickers change nothing |
| `Comparator.CompareBuildsTable` | app.py:183-188 | a completed comparison has one column per distinct ticker whose history arrived, holding that history at base 100, and none for failed tickers |
| `Comparator.CompareAbortsIff` | app.py:184-188 | the page stops exactly when some ticker's history arrives empty, and it names such a ticker |
| `Comparator.CompareAsWrittenIsEmpty` | app.py:185 | with the loader as written the comparison table is always empty |

## Findings

| source | as written | input that shows it | evidently intended | confidence | as-written member | corrected member |
|---|---|---|---|---|---|---|
| app.py:34 | `stock.history(period=period)` names `period`, which is defined nowhere; the NameError is swallowed by the bare `except` and `pegar_dados` returns `(None, None)` | any ticker, e.g. "PETR4", with a provider that answers: the dashboard says "asset not found", the scan is empty and the comparator draws nothing | `stock.history(period=periodo)` | high; not executed | `Analysis.LoadAsWritten` | `Analysis.Load` |

The rest of the model (dashboard, scanner, comparator) uses `Analysis.Load`.
`Scanner.ScanAsWrittenIsEmpty` and `Comparator.CompareAsWrittenIsEmpty` show the
consequences of the code as written.

## Left out

- Streamlit page setup, CSS, sidebar, navigation, metrics, tabs and text (app.py:9-24, 86-174): presentation only.
- Company metadata from `stock.info` and its "N/A" fallbacks (app.py:35, 107-144): display fields, not computed. A failing metadata request counts as a provider failure.
- The yfinance client (app.py:33-35): a network client, replaced by the `fetch` parameter.
- `@st.cache_data(ttl=900)` (app.py:28): time-based memoisation. The provider is a pure function here, so repeated calls agree.
- Plotly figures and the `color_rsi` styling (app.py:120-134, 162-172, 191-193): presentation only.
- The progress-bar widget and its removal (app.py:55, 81): only the fractions fed to it are modelled.
- Floating-point rounding, and pandas' summation order in rolling means: the model uses exact reals.
- Dates: the model has no timestamps. In the source, a column assigned to `dados_comp` is reindexed onto the dates of the first stored column. The model keeps each column's own bars.
- Parsing of the comparator input, `.upper()` and `split(',')`/`strip()` (app.py:96, 179-180): text-widget handling. The model starts from the list of tickers.
- The fixed default basket (app.py:155): a constant list. The scanner is modelled for any basket.
