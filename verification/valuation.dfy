/** The valuation engine: missing-data defaults, a sector-conditional value
    score, a four-check quality score and the weighted blend that ranks the
    universe. */
module Valuation {
  import opened Wrappers
  import opened Text
  import opened Market
  import opened Ranking

  /** Default for a missing P/E, P/B or debt/equity: "expensive, risky". */
  const Penalty: real := 999.0

  /** A fundamentals row after `clean_data`: the four defaulted columns are
      plain numbers, margin and PEG may still be NaN. */
  datatype CleanRow = CleanRow(
    ticker: string,
    sector: string,
    price: Option<real>,
    trailingPe: real,
    priceToBook: real,
    roe: real,
    debtToEquity: real,
    profitMargin: Option<real>,
    pegRatio: Option<real>)

  function Clean(s: Snapshot): (c: CleanRow)
    ensures c.ticker == s.ticker && c.price == s.price
    ensures s.trailingPe.Some? ==> c.trailingPe == s.trailingPe.value
    ensures s.trailingPe.None? ==> c.trailingPe == Penalty
    ensures s.priceToBook.Some? ==> c.priceToBook == s.priceToBook.value
    ensures s.priceToBook.None? ==> c.priceToBook == Penalty
    ensures s.debtToEquity.Some? ==> c.debtToEquity == s.debtToEquity.value
    ensures s.debtToEquity.None? ==> c.debtToEquity == Penalty
    ensures s.roe.Some? ==> c.roe == s.roe.value
    ensures s.roe.None? ==> c.roe == 0.0
    ensures s.sector.Some? ==> c.sector == s.sector.value
    ensures s.sector.None? ==> c.sector == "Unknown"
    ensures c.profitMargin == s.profitMargin && c.pegRatio == s.pegRatio
  {
    CleanRow(
      s.ticker,
      s.sector.GetOr("Unknown"),
      s.price,
      s.trailingPe.GetOr(Penalty),
      s.priceToBook.GetOr(Penalty),
      s.roe.GetOr(0.0),
      s.debtToEquity.GetOr(Penalty),
      s.profitMargin,
      s.pegRatio)
  }

  function CleanData(rows: seq<Snapshot>): (r: seq<CleanRow>)
    ensures |r| == |rows|
    ensures forall i :: 0 <= i < |rows| ==> r[i] == Clean(rows[i])
  {
    seq(|rows|, i requires 0 <= i < |rows| => Clean(rows[i]))
  }

  // ---------------------------------------------------------------------
  // Sector classification

  datatype SectorClass = Financial | RealEstate | Technology | General

  /** The sector branch a row takes: substrings of the lower-cased sector name,
      tried in a fixed order. */
  function Classify(sector: string): SectorClass {
    var s := Lower(sector);
    if Contains(s, "financial") || Contains(s, "bank") then Financial
    else if Contains(s, "real estate") || Contains(s, "construction") then RealEstate
    else if Contains(s, "technology") || Contains(s, "services") then Technology
    else General
  }

  /** Matching ignores letter case. */
  lemma ClassifyIgnoresCase(sector: string)
    ensures Classify(Lower(sector)) == Classify(sector)
  {
    LowerIdempotent(sector);
  }

  /** The branches are tried in order: a sector naming both a bank keyword and a
      later keyword takes the bank branch. */
  lemma ClassifyOrder(sector: string)
    ensures Classify(sector) == Financial
        <==> Contains(Lower(sector), "financial") || Contains(Lower(sector), "bank")
    ensures Classify(sector) == RealEstate
        ==> Contains(Lower(sector), "real estate") || Contains(Lower(sector), "construction")
    ensures Classify(sector) == Technology
        ==> Contains(Lower(sector), "technology") || Contains(Lower(sector), "services")
  {
  }

  /** "Financial Services" mentions "services" but is scored as a bank. */
  lemma FinancialServicesIsFinancial()
    ensures Classify("Financial Services") == Financial
  {
    var s := Lower("Financial Services");
    assert s[0..9] == "financial";
    ContainsAt(s, "financial", 0);
  }

  // ---------------------------------------------------------------------
  // Value score

  function FinancialScore(c: CleanRow): (v: int)
    ensures 30 <= v <= 100
  {
    (if c.priceToBook < 1.5 then 40 else if c.priceToBook < 2.5 then 20 else 0)
    + (if c.roe > 0.12 then 30 else 0)
    + 30
  }

  function RealEstateScore(c: CleanRow): (v: int)
    ensures 0 <= v <= 100
  {
    (if c.trailingPe < 20.0 then 40 else 0)
    + (if c.debtToEquity < 200.0 then 30 else 0)
    + (if Above(c.profitMargin, 0.10) then 30 else 0)
  }

  function TechnologyScore(c: CleanRow): (v: int)
    ensures 0 <= v <= 100
  {
    (if c.trailingPe < 25.0 then 30 else 0)
    + (if c.debtToEquity < 10.0 then 30 else 0)
    + (if Above(c.profitMargin, 0.15) then 40 else 0)
  }

  function GeneralScore(c: CleanRow): (v: int)
    ensures 0 <= v <= 100
  {
    (if c.trailingPe < 15.0 then 40 else if c.trailingPe < 25.0 then 20 else 0)
    + (if c.debtToEquity < 70.0 then 30 else 0)
    + (if c.roe > 0.15 then 30 else 0)
  }

  /** The sector-conditional value score of a cleaned row. */
  function ValueScore(c: CleanRow): (v: int)
    ensures 0 <= v <= 100
    ensures v % 10 == 0
    ensures Classify(c.sector) == Financial ==> v >= 30
  {
    match Classify(c.sector)
    case Financial => FinancialScore(c)
    case RealEstate => RealEstateScore(c)
    case Technology => TechnologyScore(c)
    case General => GeneralScore(c)
  }

  /** Worked example: a bank at P/B 1.2 with 15% ROE scores 40 + 30 + 30. */
  lemma BankExample(c: CleanRow)
    requires c.sector == "Bank" && c.priceToBook == 1.2 && c.roe == 0.15
    ensures ValueScore(c) == 100
  {
    ContainsAt(Lower(c.sector), "bank", 0);
  }

  /** Worked example: a general row at P/E 30, D/E 50, ROE 10% scores only
      the 30 leverage points. */
  lemma GeneralExample(c: CleanRow)
    requires Classify(c.sector) == General
    requires c.trailingPe == 30.0 && c.debtToEquity == 50.0 && c.roe == 0.10
    ensures ValueScore(c) == 30
  {
  }

  /** A general row with every ratio missing scores nothing. */
  lemma AllDefaultsScoreZero(s: Snapshot)
    requires Classify(s.sector.GetOr("Unknown")) == General
    requires s.trailingPe.None? && s.priceToBook.None? && s.roe.None? && s.debtToEquity.None?
    ensures ValueScore(Clean(s)) == 0
  {
  }

  // ---------------------------------------------------------------------
  // Quality score

  /** The four quality checks; a NaN margin or PEG fails its check. */
  predicate ProfitableCheck(c: CleanRow) { c.roe > 0.0 }
  predicate MarginCheck(c: CleanRow) { Above(c.profitMargin, 0.0) }
  predicate LeverageCheck(c: CleanRow) { c.debtToEquity < 100.0 }
  predicate PegCheck(c: CleanRow) { Below(c.pegRatio, 1.5) }

  function Point(b: bool): int { if b then 1 else 0 }

  /** The "lite" Piotroski F-score: how many of the four checks pass. */
  function FScore(c: CleanRow): (f: int)
    ensures 0 <= f <= 4
    ensures f == 4 <==> ProfitableCheck(c) && MarginCheck(c) && LeverageCheck(c) && PegCheck(c)
    ensures f == 0 <==> !ProfitableCheck(c) && !MarginCheck(c) && !LeverageCheck(c) && !PegCheck(c)
    ensures c.profitMargin.None? && c.pegRatio.None? ==> f <= 2
  {
    Point(ProfitableCheck(c)) + Point(MarginCheck(c)) + Point(LeverageCheck(c)) + Point(PegCheck(c))
  }

  function QualityScore(c: CleanRow): (q: real)
    ensures q == 0.0 || q == 25.0 || q == 50.0 || q == 75.0 || q == 100.0
    ensures q == 100.0 <==> FScore(c) == 4
    ensures q == 0.0 <==> FScore(c) == 0
    ensures q == 25.0 * FScore(c) as real
  {
    FScore(c) as real / 4.0 * 100.0
  }

  // ---------------------------------------------------------------------
  // Blend and rank

  datatype ScoredRow = ScoredRow(
    row: CleanRow,
    valueScore: int,
    qualityScore: real,
    techScore: real,
    totalScore: real)

  function Total(r: ScoredRow): real { r.totalScore }

  /** One row's three scores and their 40/20/40 blend. */
  function Score(c: CleanRow, tech: real): (r: ScoredRow)
    ensures r.row == c
    ensures r.valueScore == ValueScore(c) && r.qualityScore == QualityScore(c) && r.techScore == tech
    ensures 0 <= r.valueScore <= 100 && 0.0 <= r.qualityScore <= 100.0
    ensures r.totalScore == 0.4 * r.valueScore as real + 0.2 * r.qualityScore + 0.4 * tech
    ensures 0.0 <= tech <= 100.0 ==> 0.0 <= r.totalScore <= 100.0
  {
    var v := ValueScore(c);
    var q := QualityScore(c);
    ScoredRow(c, v, q, tech, 0.4 * v as real + 0.2 * q + 0.4 * tech)
  }

  /** `get_blended_score`: attach value, quality and technical scores, blend,
      and rank by total score. Without a technical-score column every row's
      technical score is 0. */
  function GetBlendedScore(rows: seq<CleanRow>, techColumn: Option<seq<real>>): (r: seq<ScoredRow>)
    requires techColumn.Some? ==> |techColumn.value| == |rows|
    ensures SortedDesc(r, Total)
    ensures multiset(r) == multiset(BlendRows(rows, techColumn))
    ensures |r| == |rows|
    ensures techColumn.None? ==> forall i :: 0 <= i < |r| ==> r[i].techScore == 0.0
    ensures (techColumn.None? || forall i :: 0 <= i < |rows| ==> 0.0 <= techColumn.value[i] <= 100.0)
        ==> forall i :: 0 <= i < |r| ==> 0.0 <= r[i].totalScore <= 100.0
  {
    var blended := BlendRows(rows, techColumn);
    var ranked := SortDesc(blended, Total);
    assert forall i :: 0 <= i < |ranked| ==> ranked[i] in multiset(blended);
    ranked
  }

  /** The unsorted blend, row by row. */
  function BlendRows(rows: seq<CleanRow>, techColumn: Option<seq<real>>): (r: seq<ScoredRow>)
    requires techColumn.Some? ==> |techColumn.value| == |rows|
    ensures |r| == |rows|
    ensures forall i :: 0 <= i < |rows| ==> r[i].row == rows[i]
    ensures forall i :: 0 <= i < |rows| ==> r[i] == Score(rows[i], if techColumn.Some? then techColumn.value[i] else 0.0)
    ensures techColumn.None? ==> forall i :: 0 <= i < |r| ==> r[i].techScore == 0.0
    ensures techColumn.Some? ==> forall i :: 0 <= i < |r| ==> r[i].techScore == techColumn.value[i]
    ensures (techColumn.None? || forall i :: 0 <= i < |rows| ==> 0.0 <= techColumn.value[i] <= 100.0)
        ==> forall i :: 0 <= i < |r| ==> 0.0 <= r[i].totalScore <= 100.0
  {
    seq(|rows|, i requires 0 <= i < |rows| =>
      Score(rows[i], if techColumn.Some? then techColumn.value[i] else 0.0))
  }

  /** Ranking an already ranked table changes nothing. */
  lemma RerankIsIdentity(ranked: seq<ScoredRow>)
    requires SortedDesc(ranked, Total)
    ensures SortDesc(ranked, Total) == ranked
  {
    SortDescIdempotent(ranked, Total);
  }
}
