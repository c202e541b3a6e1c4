/** The mutual-fund advisor: the mutual-fund share of capital split 50/50
    between an index fund and a flexi-cap fund, the safe share 80/20 between a
    liquid fund and a gold fund, each bucket only above a 1,000 minimum. */
module MutualFunds {
  import opened Personalization

  datatype Fund = NiftyIndex | FlexiCap | LiquidDebt | GoldFund

  datatype FundOrder = FundOrder(fund: Fund, amount: real)

  /** Buckets at or below this amount are not worth allocating. */
  const MinimumBucket: real := 1000.0

  function CoreCapital(a: AssetAllocation, capital: real): real {
    capital * (a.mutualFunds / 100.0)
  }

  function SafeCapital(a: AssetAllocation, capital: real): real {
    capital * (a.safeDebtGold / 100.0)
  }

  function Amounts(orders: seq<FundOrder>): real {
    if |orders| == 0 then 0.0 else Amounts(orders[..|orders| - 1]) + orders[|orders| - 1].amount
  }

  /** `recommend_funds`: 0, 2 or 4 orders, always in the order index, flexi,
      liquid, gold, together spending exactly the buckets that qualify. */
  function RecommendFunds(a: AssetAllocation, capital: real): (r: seq<FundOrder>)
    ensures var core := CoreCapital(a, capital);
            var safe := SafeCapital(a, capital);
      && |r| == (if core > MinimumBucket then 2 else 0) + (if safe > MinimumBucket then 2 else 0)
      && (core > MinimumBucket ==>
            r[0] == FundOrder(NiftyIndex, core / 2.0) && r[1] == FundOrder(FlexiCap, core / 2.0))
      && (safe > MinimumBucket ==>
            var k := |r| - 2;
            r[k] == FundOrder(LiquidDebt, safe * 0.8) && r[k + 1] == FundOrder(GoldFund, safe * 0.2))
      && Amounts(r) == (if core > MinimumBucket then core else 0.0) + (if safe > MinimumBucket then safe else 0.0)
    ensures forall i :: 0 <= i < |r| ==> r[i].amount > 0.0
  {
    var core := CoreCapital(a, capital);
    var safe := SafeCapital(a, capital);
    var coreOrders :=
      if core > MinimumBucket then [FundOrder(NiftyIndex, core / 2.0), FundOrder(FlexiCap, core / 2.0)] else [];
    var safeOrders :=
      if safe > MinimumBucket then [FundOrder(LiquidDebt, safe * 0.80), FundOrder(GoldFund, safe * 0.20)] else [];
    AmountsAppend(coreOrders, safeOrders);
    assert core > MinimumBucket ==> Amounts(coreOrders) == core by {
      if core > MinimumBucket { AmountsPair(coreOrders[0], coreOrders[1]); }
    }
    assert safe > MinimumBucket ==> Amounts(safeOrders) == safe by {
      if safe > MinimumBucket { AmountsPair(safeOrders[0], safeOrders[1]); }
    }
    coreOrders + safeOrders
  }

  lemma AmountsPair(x: FundOrder, y: FundOrder)
    ensures Amounts([x, y]) == x.amount + y.amount
  {
    var xy := [x, y];
    assert xy[..1] == [x];
    assert [x][..0] == [];
    assert Amounts([x]) == Amounts([]) + x.amount;
    assert Amounts(xy) == Amounts(xy[..1]) + y.amount;
  }

  lemma {:induction false} AmountsAppend(xs: seq<FundOrder>, ys: seq<FundOrder>)
    ensures Amounts(xs + ys) == Amounts(xs) + Amounts(ys)
    decreases |ys|
  {
    if |ys| == 0 {
      assert xs + ys == xs;
    } else {
      assert (xs + ys)[..|xs + ys| - 1] == xs + ys[..|ys| - 1];
      AmountsAppend(xs, ys[..|ys| - 1]);
    }
  }

  /** The fund rows never name a fund twice. */
  lemma FundsDistinct(a: AssetAllocation, capital: real)
    ensures var r := RecommendFunds(a, capital);
      forall i, j :: 0 <= i < j < |r| ==> r[i].fund != r[j].fund
  {
  }

  /** A bucket of exactly 1,000 is skipped: the minimum is strict. */
  lemma ExactMinimumSkipped()
    ensures RecommendFunds(AssetAllocation(40.0, 10.0, 50.0), 10000.0)
         == [FundOrder(LiquidDebt, 4000.0), FundOrder(GoldFund, 1000.0)]
  {
  }
}
