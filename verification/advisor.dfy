/** The advisor's top-level flow: the insurance deduction, the stock budget
    gate, the RSI timing gate and the equal-weight redistribution of the stock
    budget over the rows that survive every filter. */
module Advisor {
  import opened Wrappers
  import opened Numerics
  import opened Text
  import opened Seqs
  import opened Profiles
  import opened Personalization
  import opened Insurance
  import opened Market
  import opened Technical
  import opened Portfolio

  const StartingCapital: real := 100000.0
  const Overbought: real := 75.0

  /** The premiums the plan asks for: the first number in each premium text,
      commas dropped; a text without digits adds nothing. */
  function TotalPremium(recs: seq<InsuranceRec>): (t: nat)
    ensures recs == [] ==> t == 0
  {
    if |recs| == 0 then 0
    else TotalPremium(recs[..|recs| - 1]) + FirstNumber(recs[|recs| - 1].estPremium).GetOr(0)
  }

  /** The premium bill is additive over the rows. */
  lemma {:induction false} TotalPremiumAppend(a: seq<InsuranceRec>, b: seq<InsuranceRec>)
    ensures TotalPremium(a + b) == TotalPremium(a) + TotalPremium(b)
    decreases |b|
  {
    if |b| == 0 {
      assert a + b == a;
    } else {
      assert (a + b)[..|a + b| - 1] == a + b[..|b| - 1];
      TotalPremiumAppend(a, b[..|b| - 1]);
    }
  }

  /** The deduction happens only when there are rows and the answer, lower-cased,
      is exactly "y". */
  predicate Accepts(answer: string) {
    Lower(answer) == "y"
  }

  function CapitalAfterInsurance(capital: real, recs: seq<InsuranceRec>, answer: string): (c: real)
    ensures c <= capital
    ensures c == capital <==> recs == [] || !Accepts(answer) || TotalPremium(recs) == 0
    ensures recs != [] && Accepts(answer) ==> c == capital - TotalPremium(recs) as real
  {
    if recs != [] && Accepts(answer) then capital - TotalPremium(recs) as real else capital
  }

  /** Both spellings of yes are accepted; nothing else is. */
  lemma YesInEitherCase()
    ensures Accepts("y") && Accepts("Y")
    ensures !Accepts("yes") && !Accepts("n") && !Accepts("")
  {
    assert Lower("y")[0] == 'y' && Lower("Y")[0] == 'y';
    assert Lower("n")[0] == 'n';
    assert |Lower("yes")| == 3;
  }

  lemma PremiumTextParses(n: nat)
    ensures FirstNumber(PremiumText(n)) == Some(n)
  {
    assert NoDigits("₹") by {
      assert "₹"[0] == '₹';
    }
    assert ',' !in "/year";
    FirstNumberOfEmbedded("₹", n, "/year");
  }

  lemma AddOnSplit()
    ensures AddOnPremiumText == "₹3" + "," + "000/year"
  {
  }

  lemma CommaDrops()
    ensures DropCommas(",") == ""
  {
  }

  lemma RupeeThreeKept()
    ensures DropCommas("₹3") == "₹3"
  {
    DropCommasNoop("₹3");
  }

  lemma ThousandsKept()
    ensures DropCommas("000/year") == "000/year"
  {
    DropCommasNoop("000/year");
  }

  lemma DropMiddle(a: string, b: string, c: string)
    requires DropCommas(a) == a && DropCommas(b) == "" && DropCommas(c) == c
    ensures DropCommas(a + b + c) == a + c
  {
    calc {
      DropCommas(a + b + c);
      { DropCommasAppend(a + b, c); }
      DropCommas(a + b) + DropCommas(c);
      { DropCommasAppend(a, b); }
      DropCommas(a) + DropCommas(b) + DropCommas(c);
      a + [] + c;
    }
    assert a + [] + c == a + c;
  }

  /** The add-on premium text with its thousands separator removed. */
  lemma AddOnCommasDropped()
    ensures DropCommas(AddOnPremiumText) == "₹" + "3000/year"
  {
    AddOnSplit();
    CommaDrops();
    RupeeThreeKept();
    ThousandsKept();
    DropMiddle("₹3", ",", "000/year");
  }

  lemma ThreeThousandValue()
    ensures AllDigits("3000") && DigitsValue("3000") == 3000
  {
    assert "3000"[..3] == "300";
    assert "300"[..2] == "30";
    assert "30"[..1] == "3";
    assert "3"[..0] == "";
  }

  lemma AddOnPremiumParses()
    ensures FirstNumber(AddOnPremiumText) == Some(3000)
  {
    AddOnCommasDropped();
    assert NoDigits("₹") by {
      assert "₹"[0] == '₹';
    }
    FromFirstDigitSkips("₹", "3000/year");
    assert "3000/year" == "3000" + "/year";
    ThreeThousandValue();
    LeadingDigitsStops("3000", "/year");
  }

  lemma TotalPremiumOfThree(recs: seq<InsuranceRec>)
    requires |recs| == 3
    ensures TotalPremium(recs) == FirstNumber(recs[0].estPremium).GetOr(0)
                                + FirstNumber(recs[1].estPremium).GetOr(0)
                                + FirstNumber(recs[2].estPremium).GetOr(0)
  {
    assert recs[..2][..1] == recs[..1];
    assert recs[..1][..0] == [];
  }

  /** A profile without any cover, aged under 30, pays 12,000 + 15,000 + 3,000. */
  lemma YoungUncoveredPremium(p: UserProfile)
    requires p.age.Some? && p.age.value < 30
    requires Lacks(p.hasTermInsurance) && Lacks(p.hasHealthInsurance)
    ensures GetRecommendations(p).Success?
    ensures TotalPremium(GetRecommendations(p).value) == 30000
  {
    var recs := GetRecommendations(p).value;
    var kinds := Kinds(recs);
    assert kinds == [TermInsurance, HealthInsurance, HealthAddOn];
    assert |recs| == 3;
    assert recs[0].kind == TermInsurance && RowFits(p, recs[0]);
    assert recs[1].kind == HealthInsurance && RowFits(p, recs[1]);
    assert recs[2].kind == HealthAddOn && RowFits(p, recs[2]);
    PremiumTextParses(12000);
    PremiumTextParses(15000);
    AddOnPremiumParses();
    TotalPremiumOfThree(recs);
  }

  /** `stock_budget`: the stocks share of the capital left. */
  function StockBudget(capital: real, a: AssetAllocation): (b: real)
    ensures a.stocks > 0.0 ==> (b > 0.0 <==> capital > 0.0)
  {
    capital * (a.stocks / 100.0)
  }

  /** The advisor's run stops before any stock work unless the budget is positive. */
  predicate ProceedsToStocks(capital: real, a: AssetAllocation) {
    StockBudget(capital, a) > 0.0
  }

  /** Accepting a premium bill that reaches the starting capital would stop the
      advisor's run at the stock-budget gate. The advisor's own insurance rows
      never bill that much (`InsuranceBillAtMost`), so in its run the gate does
      not fire (`InsuranceNeverStopsRun`). */
  lemma PremiumsCanExhaustCapital(a: AssetAllocation, recs: seq<InsuranceRec>)
    requires a.stocks > 0.0
    requires recs != [] && TotalPremium(recs) as real >= StartingCapital
    ensures !ProceedsToStocks(CapitalAfterInsurance(StartingCapital, recs, "y"), a)
  {
    YesInEitherCase();
  }

  /** The premium each insurance row asks for: 3,000 for the add-on, at most
      25,000 for a term or health row. */
  lemma RowPremium(p: UserProfile, rec: InsuranceRec)
    requires RowFits(p, rec)
    ensures rec.kind == HealthAddOn ==> FirstNumber(rec.estPremium) == Some(3000)
    ensures rec.kind != HealthAddOn ==> FirstNumber(rec.estPremium).GetOr(0) <= 25000
  {
    match rec.kind
    case TermInsurance => PremiumTextParses(TermPremium(p.age.value));
    case HealthInsurance => PremiumTextParses(HealthPremium(p.age.value));
    case HealthAddOn => AddOnPremiumParses();
  }

  /** The insurance rows the advisor builds bill at most 25,000 + 25,000 + 3,000. */
  lemma InsuranceBillAtMost(p: UserProfile)
    requires GetRecommendations(p).Success?
    ensures TotalPremium(GetRecommendations(p).value) <= 53000
  {
    var recs := GetRecommendations(p).value;
    assert |Kinds(recs)| == |recs|;
    if |recs| == 1 {
      assert Kinds(recs)[0] == TermInsurance;
      RowPremium(p, recs[0]);
      assert recs[..0] == [];
    } else if |recs| == 2 {
      assert Kinds(recs)[0] == HealthInsurance && Kinds(recs)[1] == HealthAddOn;
      RowPremium(p, recs[0]);
      RowPremium(p, recs[1]);
      assert recs[..1][..0] == [] && recs[..1][0] == recs[0];
    } else if |recs| == 3 {
      assert Kinds(recs)[2] == HealthAddOn && Kinds(recs)[0] != HealthAddOn && Kinds(recs)[1] != HealthAddOn;
      RowPremium(p, recs[0]);
      RowPremium(p, recs[1]);
      RowPremium(p, recs[2]);
      TotalPremiumOfThree(recs);
    }
  }

  /** Whatever the answer, the advisor's insurance deduction leaves a positive
      stock budget, so its run always proceeds to the stock work. */
  lemma InsuranceNeverStopsRun(p: UserProfile, answer: string)
    requires GetRecommendations(p).Success?
    ensures ProceedsToStocks(CapitalAfterInsurance(StartingCapital, GetRecommendations(p).value, answer),
                             GetAssetAllocation(p))
  {
    InsuranceBillAtMost(p);
    assert GetAssetAllocation(p).stocks > 0.0;
  }

  /** The RSI gate: a row is skipped only when its RSI is above 75; a NaN RSI
      compares false and keeps the row. */
  predicate Timely(rec: Recommendation, closes: string -> Option<seq<real>>) {
    !Above(GetRsi(closes(YahooSymbol(rec.ticker)), DefaultPeriod), Overbought)
  }

  function RsiGate(buys: seq<Recommendation>, closes: string -> Option<seq<real>>): (r: seq<Recommendation>)
    ensures forall b :: b in r <==> b in buys && Timely(b, closes)
    ensures IsSubsequence(r, buys)
  {
    FilterIsSubsequence(buys, (b: Recommendation) => Timely(b, closes));
    Filter(buys, (b: Recommendation) => Timely(b, closes))
  }

  /** A ticker whose price history could not be fetched is never skipped. */
  lemma NoHistoryIsTimely(rec: Recommendation, closes: string -> Option<seq<real>>)
    requires closes(YahooSymbol(rec.ticker)).None?
    ensures Timely(rec, closes)
  {
  }

  /** The final re-weighting: every surviving row gets the budget divided evenly
      (rounded to the paisa) and the whole shares that buys at its price. */
  function EqualWeight(buys: seq<Recommendation>, budget: real): (r: seq<Recommendation>)
    requires forall i :: 0 <= i < |buys| ==> buys[i].price > 0.0
    ensures |r| == |buys|
    ensures forall i :: 0 <= i < |r| ==>
      && r[i].ticker == buys[i].ticker && r[i].price == buys[i].price
      && r[i].estCost == RoundHundredths(budget / |buys| as real)
      && (r[i].estCost >= 0.0 ==> 0 <= r[i].shares && r[i].shares as real <= r[i].estCost / r[i].price < r[i].shares as real + 1.0)
    ensures forall i :: 0 <= i < |r| ==> r[i] == buys[i].(estCost := r[i].estCost, shares := r[i].shares)
  {
    if |buys| == 0 then []
    else
      var each := RoundHundredths(budget / |buys| as real);
      seq(|buys|, i requires 0 <= i < |buys| =>
        buys[i].(estCost := each, shares := Truncate(each / buys[i].price)))
  }

  lemma ScaleBounds(x: real, lo: real, hi: real, n: real)
    requires lo <= x <= hi && n > 0.0
    ensures lo * n <= x * n <= hi * n
  {
  }

  /** An even share off by at most half a paisa, times the count, is off by at
      most half a paisa per row. */
  lemma SharesNearTotal(budget: real, n: real, each: real)
    requires n > 0.0 && -0.005 <= each - budget / n <= 0.005
    ensures budget - 0.005 * n <= each * n <= budget + 0.005 * n
  {
    var exact := budget / n;
    assert exact * n == budget;
    var d := each - exact;
    ScaleBounds(d, -0.005, 0.005, n);
    assert -0.005 * n <= d * n <= 0.005 * n;
    calc {
      each * n;
      (exact + d) * n;
      exact * n + d * n;
      budget + d * n;
    }
  }

  /** With a positive budget no row's share count is negative and the rounded
      costs add up to within half a paisa per row of the budget. */
  lemma EqualWeightNearBudget(buys: seq<Recommendation>, budget: real)
    requires forall i :: 0 <= i < |buys| ==> buys[i].price > 0.0
    requires budget > 0.0 && |buys| > 0
    ensures forall i :: 0 <= i < |buys| ==> EqualWeight(buys, budget)[i].shares >= 0
    ensures var each := EqualWeight(buys, budget)[0].estCost;
      budget - 0.005 * |buys| as real <= each * |buys| as real <= budget + 0.005 * |buys| as real
  {
    var n := |buys| as real;
    var exact := budget / n;
    var each := RoundHundredths(exact);
    assert exact * n == budget;
    assert each >= 0.0 by {
      assert exact > 0.0;
      assert (each * 100.0).Floor > -1;
    }
    assert EqualWeight(buys, budget)[0].estCost == each;
    SharesNearTotal(budget, n, each);
  }
}
