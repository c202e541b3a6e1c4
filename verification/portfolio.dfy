/** The portfolio manager: values existing holdings, flags holdings to sell,
    and greedily allocates new capital, first to a safety bucket of index and
    gold ETFs, then to the best-ranked stocks. */
module Portfolio {
  import opened Wrappers
  import opened Numerics
  import opened Seqs
  import opened Market
  import opened Ranking
  import opened Valuation

  /** A row of the holdings file; non-numeric share or price cells are `None`. */
  datatype Holding = Holding(ticker: string, shares: Option<real>, avgPrice: Option<real>, assetType: string)

  /** `pd.to_numeric(..., errors='coerce').fillna(0)`. */
  function Coerce(x: Option<real>): real {
    x.GetOr(0.0)
  }

  function HoldingValue(h: Holding): real {
    Coerce(h.shares) * Coerce(h.avgPrice)
  }

  /** Mutual funds, ETFs and index funds form the safety bucket and are never sold. */
  predicate IsSafeAsset(h: Holding) {
    h.assetType == "MF" || h.assetType == "ETF" || h.assetType == "Index"
  }

  function Values(hs: seq<Holding>): (vs: seq<real>)
    ensures |vs| == |hs| && forall i :: 0 <= i < |hs| ==> vs[i] == HoldingValue(hs[i])
  {
    seq(|hs|, i requires 0 <= i < |hs| => HoldingValue(hs[i]))
  }

  function Tickers(hs: seq<Holding>): set<string> {
    set i | 0 <= i < |hs| :: hs[i].ticker
  }

  /** No later row of `hs` has the same ticker as row `i`. */
  predicate LastOfTicker(hs: seq<Holding>, i: int)
    requires 0 <= i < |hs|
  {
    forall j :: i < j < |hs| ==> hs[j].ticker != hs[i].ticker
  }

  lemma TickersSnoc(hs: seq<Holding>)
    requires |hs| > 0
    ensures Tickers(hs) == Tickers(hs[..|hs| - 1]) + {hs[|hs| - 1].ticker}
  {
    var init := hs[..|hs| - 1];
    forall t | t in Tickers(hs) ensures t in Tickers(init) + {hs[|hs| - 1].ticker} {
      var i :| 0 <= i < |hs| && hs[i].ticker == t;
      if i < |hs| - 1 { assert init[i] == hs[i]; }
    }
    forall t | t in Tickers(init) ensures t in Tickers(hs) {
      var i :| 0 <= i < |init| && init[i].ticker == t;
      assert hs[i] == init[i];
    }
  }

  /** Ticker -> value, built row by row so that a later row overwrites an
      earlier one with the same ticker. */
  function ValueMap(hs: seq<Holding>): (m: map<string, real>)
    ensures m.Keys == Tickers(hs)
  {
    if |hs| == 0 then map[]
    else
      TickersSnoc(hs);
      ValueMap(hs[..|hs| - 1])[hs[|hs| - 1].ticker := HoldingValue(hs[|hs| - 1])]
  }

  /** The value kept for a ticker is that of its last row. */
  lemma {:induction false} ValueMapLast(hs: seq<Holding>, i: int)
    requires 0 <= i < |hs| && LastOfTicker(hs, i)
    ensures hs[i].ticker in ValueMap(hs) && ValueMap(hs)[hs[i].ticker] == HoldingValue(hs[i])
  {
    if i < |hs| - 1 {
      var init := hs[..|hs| - 1];
      assert init[i] == hs[i];
      assert LastOfTicker(init, i);
      ValueMapLast(init, i);
      assert hs[|hs| - 1].ticker != hs[i].ticker;
    }
  }

  lemma ValueMapLastAll(hs: seq<Holding>)
    ensures forall i :: 0 <= i < |hs| && LastOfTicker(hs, i) ==> ValueMap(hs)[hs[i].ticker] == HoldingValue(hs[i])
  {
    forall i | 0 <= i < |hs| && LastOfTicker(hs, i)
      ensures ValueMap(hs)[hs[i].ticker] == HoldingValue(hs[i])
    {
      ValueMapLast(hs, i);
    }
  }

  datatype PortfolioValue = PortfolioValue(total: real, byTicker: map<string, real>)

  /** `get_current_valuation`: total cost basis and per-ticker value. */
  function GetCurrentValuation(hs: seq<Holding>): (v: PortfolioValue)
    ensures hs == [] ==> v == PortfolioValue(0.0, map[])
    ensures v.total == Sum(Values(hs))
    ensures v.byTicker.Keys == Tickers(hs)
    ensures forall i :: 0 <= i < |hs| && LastOfTicker(hs, i) ==> v.byTicker[hs[i].ticker] == HoldingValue(hs[i])
  {
    ValueMapLastAll(hs);
    if |hs| == 0 then PortfolioValue(0.0, map[]) else PortfolioValue(Sum(Values(hs)), ValueMap(hs))
  }

  /** With one row per ticker, the total is the sum of the map's values;
      shown for the per-holding step: adding a fresh ticker adds its value. */
  lemma {:induction false} TotalGrowsByNewHolding(hs: seq<Holding>, h: Holding)
    ensures GetCurrentValuation(hs + [h]).total == GetCurrentValuation(hs).total + HoldingValue(h)
    ensures GetCurrentValuation(hs + [h]).byTicker[h.ticker] == HoldingValue(h)
  {
    assert Values(hs + [h]) == Values(hs) + [HoldingValue(h)];
    SumAppend(Values(hs), [HoldingValue(h)]);
    assert [HoldingValue(h)][..0] == [];
    var all := hs + [h];
    assert all[|all| - 1] == h && LastOfTicker(all, |all| - 1);
  }

  // ---------------------------------------------------------------------
  // Sell review

  datatype SellReason = WeakFundamentals(score: real) | Overvalued(pe: real, peg: real)

  datatype SellOrder = SellOrder(
    ticker: string,
    shares: real,
    currentPrice: Option<real>,
    reason: SellReason,
    estValue: Option<real>,
    pnlPct: Option<real>)

  const WeakScore: real := 40.0
  const ExpensivePe: real := 80.0
  const ExpensivePeg: real := 4.0

  /** The scored row of a ticker (the first, should it appear twice). */
  function Lookup(scored: seq<ScoredRow>, ticker: string): (r: Option<ScoredRow>)
    ensures r.None? <==> forall i :: 0 <= i < |scored| ==> scored[i].row.ticker != ticker
    ensures r.Some? ==> r.value in scored && r.value.row.ticker == ticker
  {
    if |scored| == 0 then None
    else if scored[0].row.ticker == ticker then Some(scored[0])
    else Lookup(scored[1..], ticker)
  }

  /** The sell rules: a total score under 40, else P/E above 80 together with
      a PEG above 4. */
  function SellReasonFor(s: ScoredRow): (r: Option<SellReason>)
    ensures r.Some? <==> s.totalScore < WeakScore || (s.row.trailingPe > ExpensivePe && Above(s.row.pegRatio, ExpensivePeg))
    ensures r.Some? && r.value.Overvalued? ==> s.totalScore >= WeakScore
  {
    if s.totalScore < WeakScore then Some(WeakFundamentals(s.totalScore))
    else if s.row.trailingPe > ExpensivePe && Above(s.row.pegRatio, ExpensivePeg) then
      Some(Overvalued(s.row.trailingPe, s.row.pegRatio.value))
    else None
  }

  /** Profit or loss in percent, rounded to two decimals; `None` when the
      price is NaN or the average price is 0 (a non-finite quotient). */
  function PnlPercent(price: Option<real>, avgPrice: real): (r: Option<real>)
    ensures r.None? <==> price.None? || avgPrice == 0.0
    ensures r.Some? ==> -0.005 <= r.value - (price.value - avgPrice) / avgPrice * 100.0 <= 0.005
    ensures r.Some? && avgPrice > 0.0 && price.value >= avgPrice ==> r.value >= 0.0
    ensures r.Some? && avgPrice > 0.0 && price.value <= avgPrice ==> r.value <= 0.0
  {
    if price.None? || avgPrice == 0.0 then None
    else
      var exact := (price.value - avgPrice) / avgPrice * 100.0;
      assert avgPrice > 0.0 && price.value >= avgPrice ==> exact >= 0.0;
      assert avgPrice > 0.0 && price.value <= avgPrice ==> exact <= 0.0;
      Some(RoundHundredths(exact))
  }

  function SellOrderFor(h: Holding, stats: ScoredRow, reason: SellReason): (o: SellOrder)
    ensures o.ticker == h.ticker && o.reason == reason && o.currentPrice == stats.row.price
    ensures o.shares == Coerce(h.shares) && o.pnlPct == PnlPercent(o.currentPrice, Coerce(h.avgPrice))
    ensures o.currentPrice.Some? <==> o.estValue.Some?
    ensures o.currentPrice.Some? ==> o.estValue.value == Coerce(h.shares) * o.currentPrice.value
  {
    var price := stats.row.price;
    SellOrder(
      h.ticker, Coerce(h.shares), price, reason,
      if price.Some? then Some(Coerce(h.shares) * price.value) else None,
      PnlPercent(price, Coerce(h.avgPrice)))
  }

  function SellFor(h: Holding, scored: seq<ScoredRow>): (o: Option<SellOrder>)
    ensures o.Some? <==> !IsSafeAsset(h) && Lookup(scored, h.ticker).Some?
                         && SellReasonFor(Lookup(scored, h.ticker).value).Some?
    ensures o.Some? ==>
      && o.value.ticker == h.ticker
      && o.value.reason == SellReasonFor(Lookup(scored, h.ticker).value).value
      && (o.value.currentPrice.Some? <==> o.value.estValue.Some?)
      && (o.value.currentPrice.Some? ==> o.value.estValue.value == Coerce(h.shares) * o.value.currentPrice.value)
  {
    if IsSafeAsset(h) then None
    else match Lookup(scored, h.ticker)
      case None => None
      case Some(stats) =>
        match SellReasonFor(stats)
        case None => None
        case Some(reason) => Some(SellOrderFor(h, stats, reason))
  }

  /** `review_portfolio_for_sells`, holding by holding. */
  function ReviewForSells(hs: seq<Holding>, scored: seq<ScoredRow>): (r: seq<SellOrder>)
    ensures |r| <= |hs|
    ensures forall o :: o in r ==> exists h :: h in hs && !IsSafeAsset(h) && SellFor(h, scored) == Some(o)
    ensures forall h :: h in hs && SellFor(h, scored).Some? ==> SellFor(h, scored).value in r
  {
    if |hs| == 0 then []
    else
      var rest := ReviewForSells(hs[1..], scored);
      assert forall h :: h in hs[1..] ==> h in hs;
      match SellFor(hs[0], scored)
      case None => rest
      case Some(o) => [o] + rest
  }

  /** A single holding yields its own sell order, or nothing. */
  lemma ReviewForSellsSingleton(h: Holding, scored: seq<ScoredRow>)
    ensures ReviewForSells([h], scored) == if SellFor(h, scored).Some? then [SellFor(h, scored).value] else []
  {
    assert [h][1..] == [];
  }

  /** Sell orders come out in holdings order: reviewing two blocks of holdings
      is reviewing each and concatenating. */
  lemma {:induction false} ReviewForSellsAppend(a: seq<Holding>, b: seq<Holding>, scored: seq<ScoredRow>)
    ensures ReviewForSells(a + b, scored) == ReviewForSells(a, scored) + ReviewForSells(b, scored)
    decreases |a|
  {
    if |a| == 0 {
      assert a + b == b;
    } else {
      assert (a + b)[0] == a[0] && (a + b)[1..] == a[1..] + b;
      ReviewForSellsAppend(a[1..], b, scored);
    }
  }

  /** Safety-bucket holdings and holdings without a score are never sold. */
  lemma {:induction false} NoSellWithoutScoreOrForSafeAssets(hs: seq<Holding>, scored: seq<ScoredRow>)
    requires forall i :: 0 <= i < |hs| ==> IsSafeAsset(hs[i]) || Lookup(scored, hs[i].ticker).None?
    ensures ReviewForSells(hs, scored) == []
  {
    if |hs| > 0 {
      NoSellWithoutScoreOrForSafeAssets(hs[1..], scored);
    }
  }

  // ---------------------------------------------------------------------
  // Allocation

  /** One buy row: whole shares at a price, the estimated cost and its share
      of the capital left at the moment of the buy. */
  datatype Recommendation = Recommendation(
    ticker: string,
    sector: string,
    shares: int,
    price: real,
    estCost: real,
    allocationPct: real)

  const SafetyShare: real := 0.20
  const SafetyTrigger: real := 5000.0
  const NiftyBeesPrice: real := 270.0
  const GoldBeesPrice: real := 62.0
  const MinimumCapital: real := 2000.0
  const HeldEnough: real := 0.8

  function SafeValues(hs: seq<Holding>): (vs: seq<real>) {
    if |hs| == 0 then []
    else (if IsSafeAsset(hs[0]) then [HoldingValue(hs[0])] else []) + SafeValues(hs[1..])
  }

  /** Value already held in mutual funds, ETFs and index funds. */
  function SafeHoldingsValue(hs: seq<Holding>): real {
    Sum(SafeValues(hs))
  }

  datatype SafetyOutcome = SafetyOutcome(orders: seq<Recommendation>, capital: real)

  /** The safety top-up: when the safe holdings are more than 5,000 short of 20%
      of the whole pool, the shortfall goes 70/30 into Nifty BeES and Gold BeES
      and the whole shortfall leaves the capital, whether or not it was there. */
  function SafetyBucket(capital: real, pool: real, safeValue: real): (s: SafetyOutcome)
    ensures var shortfall := 0.2 * pool - safeValue;
      && (shortfall > SafetyTrigger <==> s.orders != [])
      && (shortfall > SafetyTrigger ==>
            && |s.orders| == 2
            && s.orders[0].ticker == "NIFTYBEES.NS" && s.orders[1].ticker == "GOLDBEES.NS"
            && s.orders[0].estCost == 0.7 * shortfall && s.orders[1].estCost == 0.3 * shortfall
            && s.orders[0].shares == (0.7 * shortfall / NiftyBeesPrice).Floor
            && s.orders[1].shares == (0.3 * shortfall / GoldBeesPrice).Floor
            && s.capital == capital - shortfall)
      && (shortfall <= SafetyTrigger ==> s.capital == capital)
    ensures forall i :: 0 <= i < |s.orders| ==> s.orders[i].price > 0.0 && s.orders[i].shares > 0
  {
    var shortfall := SafetyShare * pool - safeValue;
    if shortfall > SafetyTrigger then
      var niftyAmount := shortfall * 0.70;
      var goldAmount := shortfall * 0.30;
      var nifty :=
        if niftyAmount > 260.0 then
          [Recommendation("NIFTYBEES.NS", "Index ETF", (niftyAmount / NiftyBeesPrice).Floor, NiftyBeesPrice, niftyAmount, 0.0)]
        else [];
      var gold :=
        if goldAmount > 60.0 then
          [Recommendation("GOLDBEES.NS", "Commodity ETF", (goldAmount / GoldBeesPrice).Floor, GoldBeesPrice, goldAmount, 0.0)]
        else [];
      SafetyOutcome(nifty + gold, capital - shortfall)
    else SafetyOutcome([], capital)
  }

  /** The safety phase can spend money that is not there: 1,000 of new capital
      beside 1,00,000 of stock holdings leaves the capital at -19,200. */
  lemma SafetyCanOverspend()
    ensures SafetyBucket(1000.0, 101000.0, 0.0).capital == -19200.0
  {
  }

  /** Equal target per position, capped at a third of the capital left; `None`
      where the source divides by zero. */
  function TargetPerStock(pool: real, topN: int, holdingCount: nat, capital: real): (t: Option<real>)
    ensures t.None? <==> topN + holdingCount == 0
    ensures t.Some? ==> t.value <= capital / 3.0 && t.value <= pool / (topN + holdingCount) as real
    ensures t.Some? ==> t.value == capital / 3.0 || t.value == pool / (topN + holdingCount) as real
  {
    if topN + holdingCount == 0 then None
    else
      var even := pool / (topN + holdingCount) as real;
      Some(if even < capital / 3.0 then even else capital / 3.0)
  }

  /** The total cost of a list of buys. */
  function Costs(rs: seq<Recommendation>): real {
    if |rs| == 0 then 0.0 else rs[0].estCost + Costs(rs[1..])
  }

  function BuyTickers(rs: seq<Recommendation>): seq<string> {
    seq(|rs|, i requires 0 <= i < |rs| => rs[i].ticker)
  }

  function RowTickers(rows: seq<ScoredRow>): seq<string> {
    seq(|rows|, i requires 0 <= i < |rows| => rows[i].row.ticker)
  }

  function Existing(held: map<string, real>, ticker: string): real {
    if ticker in held then held[ticker] else 0.0
  }

  /** Whole shares an amount buys at a positive price never cost more than it. */
  lemma FloorSharesCost(amount: real, price: real)
    requires price > 0.0
    ensures (amount / price).Floor as real * price <= amount
  {
    var q := amount / price;
    assert q * price == amount;
    assert (q.Floor as real) <= q;
  }

  /** What a row may still receive: the rest of its target, never more than the
      capital left. */
  function Amount(capital: real, target: real, existing: real): real {
    if target - existing < capital then target - existing else capital
  }

  /** A row the stock phase does not skip outright: not already held above 80%
      of the target, and with a positive price. */
  predicate Eligible(row: ScoredRow, target: real, held: map<string, real>) {
    Existing(held, row.row.ticker) <= HeldEnough * target && Above(row.row.price, 0.0)
  }

  /** The whole shares an eligible row's amount pays for at its price. */
  function SharesFor(row: ScoredRow, capital: real, target: real, held: map<string, real>): int
    requires Eligible(row, target, held)
  {
    (Amount(capital, target, Existing(held, row.row.ticker)) / row.row.price.value).Floor
  }

  /** One row of the stock phase: skip a ticker already held above 80% of the
      target and a row without a positive price; otherwise buy the whole shares
      the rest of the target (never more than the capital left) pays for, when
      that is at least one. */
  function BuyDecision(row: ScoredRow, capital: real, target: real, held: map<string, real>): (b: Option<Recommendation>)
    requires capital > 0.0
    ensures b.Some? <==> Eligible(row, target, held) && SharesFor(row, capital, target, held) > 0
    ensures b.Some? ==>
      && b.value.ticker == row.row.ticker && b.value.sector == row.row.sector
      && b.value.shares == SharesFor(row, capital, target, held)
      && Some(b.value.price) == row.row.price
      && b.value.estCost == b.value.shares as real * b.value.price
      && b.value.allocationPct == RoundHundredths(b.value.estCost / capital * 100.0)
    ensures b.Some? ==>
      && b.value.price > 0.0
      && b.value.estCost <= capital
      && b.value.estCost <= target - Existing(held, row.row.ticker)
  {
    if !Eligible(row, target, held) then None
    else
      var price := row.row.price.value;
      var shares := SharesFor(row, capital, target, held);
      var cost := shares as real * price;
      if shares > 0 then
        FloorSharesCost(Amount(capital, target, Existing(held, row.row.ticker)), price);
        Some(Recommendation(row.row.ticker, row.row.sector, shares, price, cost,
                            RoundHundredths(cost / capital * 100.0)))
      else None
  }

  /** Less capital never turns a skipped row into a buy. */
  lemma SkipStaysSkipped(row: ScoredRow, more: real, less: real, target: real, held: map<string, real>)
    requires 0.0 < less <= more
    requires BuyDecision(row, more, target, held).None?
    ensures BuyDecision(row, less, target, held).None?
  {
    if Eligible(row, target, held) {
      var existing := Existing(held, row.row.ticker);
      var price := row.row.price.value;
      DivideMonotone(Amount(less, target, existing), Amount(more, target, existing), price);
      FloorMonotone(Amount(less, target, existing) / price, Amount(more, target, existing) / price);
    }
  }

  lemma DivideMonotone(a: real, b: real, p: real)
    requires a <= b && p > 0.0
    ensures a / p <= b / p
  {
    assert (b / p - a / p) * p == b - a;
  }

  lemma FloorMonotone(x: real, y: real)
    requires x <= y
    ensures x.Floor <= y.Floor
  {
  }

  lemma PositiveCost(shares: int, price: real)
    requires shares > 0 && price > 0.0
    ensures shares as real * price > 0.0
  {
  }

  /** What every stock buy satisfies. */
  predicate ValidBuy(rec: Recommendation, target: real, held: map<string, real>) {
    && rec.shares > 0 && rec.price > 0.0
    && rec.estCost == rec.shares as real * rec.price
    && Existing(held, rec.ticker) <= HeldEnough * target
    && rec.estCost <= target - Existing(held, rec.ticker)
  }

  /** A per-row decision at a given capital left. */
  type Decide = (ScoredRow, real) -> Option<Recommendation>

  /** The stock phase's decision: `BuyDecision` at a positive capital (the
      phase stops long before the capital reaches 0). */
  function Rule(target: real, held: map<string, real>): Decide {
    (row: ScoredRow, capital: real) => if capital > 0.0 then BuyDecision(row, capital, target, held) else None
  }

  /** The stock phase as a rule over the ranked rows: stop once less than 2,000
      is left; otherwise take the first row's decision at the capital left,
      pay for a buy, and go on with the rest. The second component is the
      capital left at the end. */
  function Greedy(capital: real, rows: seq<ScoredRow>, decide: Decide): (g: (seq<Recommendation>, real))
    decreases |rows|
  {
    if |rows| == 0 || capital < MinimumCapital then ([], capital)
    else
      var d := decide(rows[0], capital);
      if d.None? then Greedy(capital, rows[1..], decide)
      else
        var rest := Greedy(capital - d.value.estCost, rows[1..], decide);
        ([d.value] + rest.0, rest.1)
  }

  /** The capital left is the starting capital less the cost of the buys, and
      below 2,000 nothing is bought at all. */
  lemma {:induction false} GreedyAccounts(capital: real, rows: seq<ScoredRow>, decide: Decide)
    ensures var g := Greedy(capital, rows, decide);
      g.1 == capital - Costs(g.0)
    ensures capital < MinimumCapital ==> Greedy(capital, rows, decide) == ([], capital)
    decreases |rows|
  {
    if |rows| > 0 && capital >= MinimumCapital {
      var d := decide(rows[0], capital);
      if d.None? {
        GreedyAccounts(capital, rows[1..], decide);
      } else {
        var rest := Greedy(capital - d.value.estCost, rows[1..], decide);
        GreedyAccounts(capital - d.value.estCost, rows[1..], decide);
        assert ([d.value] + rest.0)[1..] == rest.0;
      }
    }
  }

  /** One step of the phase: the first row's decision at the capital left. */
  lemma GreedyStep(capital: real, rows: seq<ScoredRow>, decide: Decide)
    requires |rows| > 0 && capital >= MinimumCapital
    ensures var d := decide(rows[0], capital);
      && (d.None? ==> Greedy(capital, rows, decide) == Greedy(capital, rows[1..], decide))
      && (d.Some? ==>
           && Greedy(capital, rows, decide).0 == [d.value] + Greedy(capital - d.value.estCost, rows[1..], decide).0
           && Greedy(capital, rows, decide).1 == Greedy(capital - d.value.estCost, rows[1..], decide).1)
  {
  }

  /** Decisions that keep the row's ticker. */
  ghost predicate KeepsTicker(decide: Decide) {
    forall row, capital :: decide(row, capital).Some? ==> decide(row, capital).value.ticker == row.row.ticker
  }

  /** Decisions that never cost more than the capital left, nor less than 0. */
  ghost predicate Affordable(decide: Decide) {
    forall row, capital :: decide(row, capital).Some? ==> 0.0 <= decide(row, capital).value.estCost <= capital
  }

  /** Decisions whose buys are all valid. */
  ghost predicate AlwaysValid(decide: Decide, target: real, held: map<string, real>) {
    forall row, capital :: decide(row, capital).Some? ==> ValidBuy(decide(row, capital).value, target, held)
  }

  /** Decisions that stay skips when the capital shrinks. */
  ghost predicate SkipsPersist(decide: Decide) {
    forall row, more, less :: 0.0 < less <= more && decide(row, more).None? ==> decide(row, less).None?
  }

  /** The stock phase's decision has all four properties. */
  lemma RuleIsSound(target: real, held: map<string, real>)
    ensures KeepsTicker(Rule(target, held))
    ensures Affordable(Rule(target, held))
    ensures AlwaysValid(Rule(target, held), target, held)
    ensures SkipsPersist(Rule(target, held))
  {
    var decide := Rule(target, held);
    forall row, capital | decide(row, capital).Some?
      ensures decide(row, capital).value.ticker == row.row.ticker
      ensures 0.0 <= decide(row, capital).value.estCost <= capital
      ensures ValidBuy(decide(row, capital).value, target, held)
    {
      var b := BuyDecision(row, capital, target, held).value;
      PositiveCost(b.shares, b.price);
    }
    forall row, more, less | 0.0 < less <= more && decide(row, more).None?
      ensures decide(row, less).None?
    {
      SkipStaysSkipped(row, more, less, target, held);
    }
  }

  /** Starting from a non-negative capital, the phase never overspends. */
  lemma {:induction false} GreedyBounds(capital: real, rows: seq<ScoredRow>, decide: Decide)
    requires 0.0 <= capital && Affordable(decide)
    ensures 0.0 <= Greedy(capital, rows, decide).1 <= capital
    decreases |rows|
  {
    if |rows| > 0 && capital >= MinimumCapital {
      var d := decide(rows[0], capital);
      GreedyStep(capital, rows, decide);
      if d.None? {
        GreedyBounds(capital, rows[1..], decide);
      } else {
        GreedyBounds(capital - d.value.estCost, rows[1..], decide);
      }
    }
  }

  lemma ValidCons(b: Recommendation, rest: seq<Recommendation>, target: real, held: map<string, real>)
    requires ValidBuy(b, target, held)
    requires forall i :: 0 <= i < |rest| ==> ValidBuy(rest[i], target, held)
    ensures forall i :: 0 <= i < |[b] + rest| ==> ValidBuy(([b] + rest)[i], target, held)
  {
  }

  /** Every buy of the phase is one of the decision's buys. */
  lemma {:induction false} GreedyValid(capital: real, rows: seq<ScoredRow>, decide: Decide, target: real, held: map<string, real>)
    requires AlwaysValid(decide, target, held)
    ensures var buys := Greedy(capital, rows, decide).0;
      forall i :: 0 <= i < |buys| ==> ValidBuy(buys[i], target, held)
    decreases |rows|
  {
    if |rows| > 0 && capital >= MinimumCapital {
      var d := decide(rows[0], capital);
      GreedyStep(capital, rows, decide);
      if d.None? {
        GreedyValid(capital, rows[1..], decide, target, held);
      } else {
        GreedyValid(capital - d.value.estCost, rows[1..], decide, target, held);
        ValidCons(d.value, Greedy(capital - d.value.estCost, rows[1..], decide).0, target, held);
      }
    }
  }

  /** The buys follow the ranking. */
  lemma {:induction false} GreedyInOrder(capital: real, rows: seq<ScoredRow>, decide: Decide)
    requires KeepsTicker(decide)
    ensures IsSubsequence(BuyTickers(Greedy(capital, rows, decide).0), RowTickers(rows))
    decreases |rows|
  {
    var buys := Greedy(capital, rows, decide).0;
    if |rows| > 0 && capital >= MinimumCapital {
      assert RowTickers(rows)[1..] == RowTickers(rows[1..]);
      var d := decide(rows[0], capital);
      GreedyStep(capital, rows, decide);
      if d.None? {
        GreedyInOrder(capital, rows[1..], decide);
      } else {
        var rest := Greedy(capital - d.value.estCost, rows[1..], decide).0;
        GreedyInOrder(capital - d.value.estCost, rows[1..], decide);
        assert buys == [d.value] + rest;
        assert BuyTickers(buys)[1..] == BuyTickers(rest);
      }
    }
  }

  /** The completeness of the tail carries over to the whole table. */
  lemma SkipsCarryOver(rows: seq<ScoredRow>, tailBuys: seq<Recommendation>, buys: seq<Recommendation>, left: real,
                       decide: Decide)
    requires |rows| > 0
    requires forall t :: t in BuyTickers(tailBuys) ==> t in BuyTickers(buys)
    requires rows[0].row.ticker in BuyTickers(buys) || decide(rows[0], left).None?
    requires forall j :: 0 <= j < |rows[1..]| && rows[1..][j].row.ticker !in BuyTickers(tailBuys) ==>
      decide(rows[1..][j], left).None?
    ensures forall j :: 0 <= j < |rows| && rows[j].row.ticker !in BuyTickers(buys) ==>
      decide(rows[j], left).None?
  {
    forall j | 0 <= j < |rows| && rows[j].row.ticker !in BuyTickers(buys)
      ensures decide(rows[j], left).None?
    {
      if j > 0 {
        assert rows[j] == rows[1..][j - 1];
      }
    }
  }

  /** Nothing is left on the table: when the phase ends with at least 2,000
      still to spend, no row whose ticker was not bought would be bought with
      that capital either. */
  lemma {:induction false} GreedyComplete(capital: real, rows: seq<ScoredRow>, decide: Decide)
    requires KeepsTicker(decide) && Affordable(decide) && SkipsPersist(decide)
    requires Greedy(capital, rows, decide).1 >= MinimumCapital
    ensures var g := Greedy(capital, rows, decide);
      forall j :: 0 <= j < |rows| && rows[j].row.ticker !in BuyTickers(g.0) ==> decide(rows[j], g.1).None?
    decreases |rows|
  {
    var g := Greedy(capital, rows, decide);
    if |rows| > 0 {
      assert capital >= MinimumCapital;
      var d := decide(rows[0], capital);
      GreedyStep(capital, rows, decide);
      GreedyBounds(capital, rows, decide);
      if d.None? {
        GreedyComplete(capital, rows[1..], decide);
        assert decide(rows[0], g.1).None?;
        SkipsCarryOver(rows, g.0, g.0, g.1, decide);
      } else {
        var rest := Greedy(capital - d.value.estCost, rows[1..], decide);
        GreedyComplete(capital - d.value.estCost, rows[1..], decide);
        assert g.0 == [d.value] + rest.0;
        assert BuyTickers(g.0) == [d.value.ticker] + BuyTickers(rest.0);
        SkipsCarryOver(rows, rest.0, g.0, g.1, decide);
      }
    }
  }

  /** The step of the phase at position `i` of the ranked table. */
  lemma GreedyAdvance(capital: real, ranked: seq<ScoredRow>, i: nat, decide: Decide)
    requires i < |ranked| && capital >= MinimumCapital
    ensures var d := decide(ranked[i], capital);
      && (d.None? ==> Greedy(capital, ranked[i..], decide) == Greedy(capital, ranked[i + 1..], decide))
      && (d.Some? ==>
           && Greedy(capital, ranked[i..], decide).0
              == [d.value] + Greedy(capital - d.value.estCost, ranked[i + 1..], decide).0
           && Greedy(capital, ranked[i..], decide).1
              == Greedy(capital - d.value.estCost, ranked[i + 1..], decide).1)
  {
    assert ranked[i..][0] == ranked[i] && ranked[i..][1..] == ranked[i + 1..];
    GreedyStep(capital, ranked[i..], decide);
  }

  /** The stock phase for a target per stock and the holdings' cost basis. */
  function StockRun(capital: real, target: real, ranked: seq<ScoredRow>, held: map<string, real>)
    : (seq<Recommendation>, real)
  {
    Greedy(capital, ranked, Rule(target, held))
  }

  /** `select_and_allocate`'s stock loop over the ranked table, for a given
      per-row decision: it computes exactly the row-by-row rule. */
  method BuyLoop(capital0: real, ranked: seq<ScoredRow>, decide: Decide)
    returns (buys: seq<Recommendation>, capital: real)
    ensures (buys, capital) == Greedy(capital0, ranked, decide)
  {
    buys := [];
    capital := capital0;
    var i := 0;
    assert ranked[0..] == ranked;
    assert [] + Greedy(capital0, ranked, decide).0 == Greedy(capital0, ranked, decide).0;
    while i < |ranked| && capital >= MinimumCapital
      invariant 0 <= i <= |ranked|
      invariant Greedy(capital0, ranked, decide).0 == buys + Greedy(capital, ranked[i..], decide).0
      invariant Greedy(capital0, ranked, decide).1 == Greedy(capital, ranked[i..], decide).1
    {
      GreedyAdvance(capital, ranked, i, decide);
      var decision := decide(ranked[i], capital);
      if decision.Some? {
        var rec := decision.value;
        assert buys + ([rec] + Greedy(capital - rec.estCost, ranked[i + 1..], decide).0)
            == (buys + [rec]) + Greedy(capital - rec.estCost, ranked[i + 1..], decide).0;
        buys := buys + [rec];
        capital := capital - rec.estCost;
      }
      i := i + 1;
    }
    assert buys + [] == buys;
  }

  /** The stock phase with what the row-by-row rule guarantees. */
  method BuyStocks(capital0: real, target: real, ranked: seq<ScoredRow>, held: map<string, real>)
    returns (buys: seq<Recommendation>, capital: real)
    ensures (buys, capital) == StockRun(capital0, target, ranked, held)
    ensures capital == capital0 - Costs(buys)
    ensures capital0 < MinimumCapital ==> buys == [] && capital == capital0
    ensures capital0 >= MinimumCapital ==> 0.0 <= capital && Costs(buys) <= capital0
    ensures forall i :: 0 <= i < |buys| ==> ValidBuy(buys[i], target, held)
    ensures IsSubsequence(BuyTickers(buys), RowTickers(ranked))
    ensures capital >= MinimumCapital ==> forall j :: 0 <= j < |ranked| && ranked[j].row.ticker !in BuyTickers(buys) ==>
      BuyDecision(ranked[j], capital, target, held).None?
  {
    var decide := Rule(target, held);
    buys, capital := BuyLoop(capital0, ranked, decide);
    GreedyAccounts(capital0, ranked, decide);
    RuleIsSound(target, held);
    GreedyInOrder(capital0, ranked, decide);
    GreedyValid(capital0, ranked, decide, target, held);
    if capital0 >= MinimumCapital {
      GreedyBounds(capital0, ranked, decide);
    }
    if capital >= MinimumCapital {
      GreedyComplete(capital0, ranked, decide);
      forall j | 0 <= j < |ranked| && ranked[j].row.ticker !in BuyTickers(buys)
        ensures BuyDecision(ranked[j], capital, target, held).None?
      {
        assert decide(ranked[j], capital).None?;
      }
    }
  }

  datatype AllocationError = ZeroDivision

  /** The safety top-up against the whole pool: new capital plus the cost basis
      of the holdings. */
  function SafetyPhase(capital: real, holdings: seq<Holding>): SafetyOutcome {
    SafetyBucket(capital, capital + GetCurrentValuation(holdings).total, SafeHoldingsValue(holdings))
  }

  /** A row that can be placed: whole shares, a positive price. */
  predicate Buyable(rec: Recommendation) {
    rec.shares > 0 && rec.price > 0.0
  }

  lemma BuyableConcat(safety: seq<Recommendation>, buys: seq<Recommendation>, target: real, held: map<string, real>)
    requires forall i :: 0 <= i < |safety| ==> safety[i].price > 0.0 && safety[i].shares > 0
    requires forall i :: 0 <= i < |buys| ==> ValidBuy(buys[i], target, held)
    ensures forall i :: 0 <= i < |safety + buys| ==> Buyable((safety + buys)[i])
  {
  }

  /** The per-stock target: the whole pool (new capital plus the holdings'
      cost basis) spread over the new picks and the holdings, capped at a third
      of the capital left after the safety top-up. */
  function Target(capital: real, holdings: seq<Holding>, topN: int): Option<real> {
    TargetPerStock(capital + GetCurrentValuation(holdings).total, topN,
                   |GetCurrentValuation(holdings).byTicker|, SafetyPhase(capital, holdings).capital)
  }

  /** The stock phase of `select_and_allocate` as the row-by-row rule over the
      table ranked by total score; `None` when the target divides by zero. */
  function StockPhase(capital: real, holdings: seq<Holding>, scored: seq<ScoredRow>, topN: int)
    : Option<(seq<Recommendation>, real)>
  {
    var target := Target(capital, holdings, topN);
    if target.None? then None
    else Some(StockRun(SafetyPhase(capital, holdings).capital, target.value, SortDesc(scored, Total),
                       GetCurrentValuation(holdings).byTicker))
  }

  /** The output table: the safety rows, then the stock rows. */
  datatype Allocation = Allocation(safety: seq<Recommendation>, stocks: seq<Recommendation>, capitalLeft: real) {
    function Orders(): seq<Recommendation> { safety + stocks }
  }

  /** `select_and_allocate`: safety top-up, then the greedy stock phase over the
      table ranked by total score. `maxSectorWeight` is accepted and ignored, as
      in the source. */
  method SelectAndAllocate(capital: real, holdings: seq<Holding>, scored: seq<ScoredRow>, topN: int, maxSectorWeight: real)
    returns (r: Result<Allocation, AllocationError>)
    ensures r.Failure? <==> topN + |GetCurrentValuation(holdings).byTicker| == 0
    ensures r.Success? ==> r.value.safety == SafetyPhase(capital, holdings).orders
    ensures r.Success? ==> r.value.capitalLeft == SafetyPhase(capital, holdings).capital - Costs(r.value.stocks)
    ensures r.Success? && SafetyPhase(capital, holdings).capital >= MinimumCapital ==>
      Costs(r.value.stocks) <= SafetyPhase(capital, holdings).capital && r.value.capitalLeft >= 0.0
    ensures r.Success? && SafetyPhase(capital, holdings).capital < MinimumCapital ==> r.value.stocks == []
    ensures r.Success? ==> IsSubsequence(BuyTickers(r.value.stocks), RowTickers(SortDesc(scored, Total)))
    ensures r.Success? ==> StockPhase(capital, holdings, scored, topN) == Some((r.value.stocks, r.value.capitalLeft))
    ensures r.Success? ==> forall i :: 0 <= i < |r.value.Orders()| ==> Buyable(r.value.Orders()[i])
  {
    var value := GetCurrentValuation(holdings);
    var safety := SafetyPhase(capital, holdings);
    var ranked := SortDesc(scored, Total);
    var target := Target(capital, holdings, topN);
    if target.None? {
      return Failure(ZeroDivision);
    }
    var buys, left := BuyStocks(safety.capital, target.value, ranked, value.byTicker);
    BuyableConcat(safety.orders, buys, target.value, value.byTicker);
    r := Success(Allocation(safety.orders, buys, left));
  }
}
