/**
  The ticker suffix rule applied by `pegar_dados` before every fetch:
  symbols of the São Paulo exchange are quoted by the data provider with the
  suffix ".SA", which is appended unless the symbol already ends with it.
*/
module Ticker {

  /** The exchange suffix appended to every symbol. */
  const Suffix: string := ".SA"

  predicate EndsWith(s: string, suffix: string)
  {
    |suffix| <= |s| && s[|s| - |suffix|..] == suffix
  }

  /** The symbol actually sent to the data provider. */
  function Normalize(ticker: string): string
  {
    if EndsWith(ticker, Suffix) then ticker else ticker + Suffix
  }

  /**
    The normalized symbol ends with ".SA" and starts with the input; it is the
    input itself exactly when the input already ends with ".SA", and otherwise
    the input followed by ".SA".
  */
  lemma NormalizeSpec(ticker: string)
    ensures var r := Normalize(ticker);
      && EndsWith(r, Suffix)
      && |ticker| <= |r| && r[..|ticker|] == ticker
      && (EndsWith(ticker, Suffix) <==> r == ticker)
      && (!EndsWith(ticker, Suffix) ==> r[|ticker|..] == Suffix)
  {
  }

  /** Normalizing an already normalized symbol changes nothing. */
  lemma NormalizeIdempotent(ticker: string)
    ensures Normalize(Normalize(ticker)) == Normalize(ticker)
  {
    NormalizeSpec(ticker);
  }

  /**
    Only the literal suffix ".SA" is recognised: an index symbol such as
    "^BVSP" (the default third symbol of the comparator) also receives it.
  */
  lemma IndexSymbolGetsSuffix()
    ensures Normalize("^BVSP") == "^BVSP.SA"
    ensures Normalize("PETR4") == "PETR4.SA"
    ensures Normalize("PETR4.SA") == "PETR4.SA"
  {
    assert !EndsWith("^BVSP", Suffix);
    assert !EndsWith("PETR4", Suffix);
    assert EndsWith("PETR4.SA", Suffix);
  }
}
