/** The history filter: keep or reject a candidate from its annual revenue and
    net-income history, giving the benefit of the doubt whenever the data is
    missing, short or unreadable. */
module History {
  import opened Wrappers
  import opened Seqs
  import opened Technical
  import opened Portfolio

  /** One fiscal year of the statements; NaN cells are `None`. */
  datatype Year = Year(revenue: Option<real>, netIncome: Option<real>)

  /** What the financial-statements fetch produced for a ticker; `Statements`
      holds the years oldest first. */
  datatype Financials =
    | FetchFailed
    | NoStatements
    | FormatMismatch
    | Statements(years: seq<Year>)

  datatype PassNote =
    | NoData
    | Mismatch
    | ShortHistory
    | Skipped
    | Growing(growthPct: Option<real>, years: nat)

  datatype RejectCause = LossMaking | RevenueCollapse

  datatype Verdict = Stable(note: PassNote) | Unstable(cause: RejectCause)

  const MinimumYears: nat := 3
  const CollapseThreshold: real := -0.20

  /** Revenue growth from the oldest to the latest year, in percent; 0 when the
      oldest revenue is missing or zero, NaN (`None`) when the latest is missing. */
  function GrowthPercent(oldest: Option<real>, latest: Option<real>): (g: Option<real>)
    ensures g.None? <==> oldest.Some? && oldest.value != 0.0 && latest.None?
    ensures oldest.Some? && oldest.value > 0.0 && latest.Some? ==>
      (g.value >= 0.0 <==> latest.value >= oldest.value)
  {
    if oldest.None? || oldest.value == 0.0 then Some(0.0)
    else if latest.None? then None
    else Some((latest.value - oldest.value) / oldest.value * 100.0)
  }

  /** Loss test: the latest net income is missing or negative AND the year
      before is a loss. */
  predicate LossMakingRecently(ys: seq<Year>)
    requires |ys| >= 2
  {
    var latest := ys[|ys| - 1].netIncome;
    var previous := ys[|ys| - 2].netIncome;
    (latest.None? || latest.value < 0.0) && previous.Some? && previous.value < 0.0
  }

  /** Collapse test: last year's revenue was positive and this year's is more
      than 20% lower. */
  predicate RevenueCollapsed(ys: seq<Year>)
    requires |ys| >= 2
  {
    var latest := ys[|ys| - 1].revenue;
    var previous := ys[|ys| - 2].revenue;
    previous.Some? && previous.value > 0.0 && latest.Some?
      && (latest.value - previous.value) / previous.value < CollapseThreshold
  }

  /** `check_stability` once the statements are fetched. */
  function CheckStability(f: Financials): (v: Verdict)
    ensures v.Unstable? <==> f.Statements? && |f.years| >= MinimumYears
                             && (LossMakingRecently(f.years) || RevenueCollapsed(f.years))
    ensures (v == Unstable(LossMaking)) <==> (f.Statements? && |f.years| >= MinimumYears && LossMakingRecently(f.years))
    ensures f.Statements? && |f.years| < MinimumYears ==> v == Stable(ShortHistory)
  {
    match f
    case FetchFailed => Stable(Skipped)
    case NoStatements => Stable(NoData)
    case FormatMismatch => Stable(Mismatch)
    case Statements(ys) =>
      if |ys| < MinimumYears then Stable(ShortHistory)
      else if LossMakingRecently(ys) then Unstable(LossMaking)
      else if RevenueCollapsed(ys) then Unstable(RevenueCollapse)
      else Stable(Growing(GrowthPercent(ys[0].revenue, ys[|ys| - 1].revenue), |ys|))
  }

  /** The informational growth figure never changes the verdict: two histories
      that differ only in their oldest revenue get the same keep/reject answer. */
  lemma GrowthIsInformational(ys: seq<Year>, oldest: Option<real>)
    requires |ys| >= MinimumYears
    ensures CheckStability(Statements(ys)).Stable?
        <==> CheckStability(Statements(ys[0 := Year(oldest, ys[0].netIncome)])).Stable?
  {
    var ys' := ys[0 := Year(oldest, ys[0].netIncome)];
    assert ys'[|ys'| - 1] == ys[|ys| - 1] && ys'[|ys'| - 2] == ys[|ys| - 2];
  }

  /** Boundary examples: 100 -> 75 is rejected, 100 -> 85 and exactly 100 -> 80
      are kept. */
  lemma CollapseBoundary(first: Year)
    requires first.netIncome == Some(1.0)
    ensures CheckStability(Statements([first, Year(Some(100.0), Some(1.0)), Year(Some(75.0), Some(1.0))]))
         == Unstable(RevenueCollapse)
    ensures CheckStability(Statements([first, Year(Some(100.0), Some(1.0)), Year(Some(85.0), Some(1.0))])).Stable?
    ensures CheckStability(Statements([first, Year(Some(100.0), Some(1.0)), Year(Some(80.0), Some(1.0))])).Stable?
  {
  }

  /** The history verdict of one buy row; statements are fetched for the
      exchange-qualified symbol. */
  predicate Passes(rec: Recommendation, fetch: string -> Financials) {
    CheckStability(fetch(YahooSymbol(rec.ticker))).Stable?
  }

  /** `filter_stocks`: the buy rows whose statements pass, in their order. */
  function FilterStocks(buys: seq<Recommendation>, fetch: string -> Financials): (r: seq<Recommendation>)
    ensures forall b :: b in r <==> b in buys && Passes(b, fetch)
    ensures IsSubsequence(r, buys)
  {
    FilterIsSubsequence(buys, (b: Recommendation) => Passes(b, fetch));
    Filter(buys, (b: Recommendation) => Passes(b, fetch))
  }

  /** Fail-open: when no row's statements could be fetched, nothing is rejected. */
  lemma FetchFailuresPassEverything(buys: seq<Recommendation>, fetch: string -> Financials)
    requires forall i :: 0 <= i < |buys| ==> !fetch(YahooSymbol(buys[i].ticker)).Statements?
    ensures FilterStocks(buys, fetch) == buys
  {
    FilterKeepsAll(buys, (b: Recommendation) => Passes(b, fetch));
  }
}
