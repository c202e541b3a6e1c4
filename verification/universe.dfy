/** The ticker universe: NIFTY 500 symbols read from a CSV, each given the
    ".NS" suffix, with a fixed fallback when the file is absent. */
module Universe {
  import opened Text

  /** What reading the symbol CSV produced. */
  datatype CsvOutcome = FileMissing | ReadError | Symbols(symbols: seq<string>)

  const Fallback: seq<string> := ["RELIANCE.NS", "TCS.NS", "HDFCBANK.NS"]

  /** Appends ".NS" unless already present; a ".BO" symbol still gets ".NS". */
  function WithNseSuffix(t: string): (r: string)
    ensures EndsWith(r, ".NS")
    ensures EndsWith(t, ".NS") ==> r == t
    ensures !EndsWith(t, ".NS") ==> r == t + ".NS"
  {
    if EndsWith(t, ".NS") then t else t + ".NS"
  }

  function Normalize(tickers: seq<string>): (r: seq<string>)
    ensures |r| == |tickers|
    ensures forall i :: 0 <= i < |r| ==> r[i] == WithNseSuffix(tickers[i])
    ensures forall i :: 0 <= i < |r| ==> EndsWith(r[i], ".NS")
  {
    seq(|tickers|, i requires 0 <= i < |tickers| => WithNseSuffix(tickers[i]))
  }

  /** Normalising a normalised list changes nothing. */
  lemma NormalizeIdempotent(tickers: seq<string>)
    ensures Normalize(Normalize(tickers)) == Normalize(tickers)
  {
  }

  /** Symbols already carrying ".NS" pass through unchanged. */
  lemma NormalizeKeepsSuffixed(tickers: seq<string>)
    requires forall i :: 0 <= i < |tickers| ==> EndsWith(tickers[i], ".NS")
    ensures Normalize(tickers) == tickers
  {
  }

  /** `get_nifty500_tickers`. */
  function GetNifty500Tickers(csv: CsvOutcome): (r: seq<string>)
    ensures csv.FileMissing? ==> r == Fallback
    ensures csv.ReadError? ==> r == []
    ensures csv.Symbols? ==> r == Normalize(csv.symbols)
    ensures csv.Symbols? ==> |r| == |csv.symbols|
    ensures forall i :: 0 <= i < |r| ==> EndsWith(r[i], ".NS")
  {
    match csv
    case FileMissing => Fallback
    case ReadError => []
    case Symbols(symbols) => Normalize(symbols)
  }

  /** A ".BO" symbol is not recognised as listed: it becomes "X.BO.NS". */
  lemma BseSymbolGetsNseSuffix()
    ensures WithNseSuffix("SBIN.BO") == "SBIN.BO.NS"
  {
  }
}
