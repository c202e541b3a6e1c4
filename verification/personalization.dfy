/** The "Rule of 100" asset-allocation planner: equity share from age and risk
    appetite, clamped to [20, 90], split between direct stocks and mutual funds,
    the rest to debt and gold. */
module Personalization {
  import opened Wrappers
  import opened Numerics
  import opened Profiles

  /** Percentages of the investable capital for each asset class. */
  datatype AssetAllocation = AssetAllocation(stocks: real, mutualFunds: real, safeDebtGold: real)

  const DefaultAge: int := 30
  const DefaultRisk: string := "Medium"

  /** Equity exposure before clamping: 100 - age, +10 for exactly "High",
      -10 for exactly "Low". */
  function RawEquity(age: int, risk: string): int {
    100 - age + (if risk == "High" then 10 else if risk == "Low" then -10 else 0)
  }

  /** Equity exposure after the cap limits. */
  function EquityPercent(age: int, risk: string): (e: int)
    ensures 20 <= e <= 90
    ensures 20 < RawEquity(age, risk) < 90 ==> e == RawEquity(age, risk)
    ensures e == 20 <==> RawEquity(age, risk) <= 20
    ensures e == 90 <==> RawEquity(age, risk) >= 90
  {
    var raw := RawEquity(age, risk);
    if raw < 20 then 20 else if raw > 90 then 90 else raw
  }

  /** Share of equity held as direct stocks, in tenths: 7 for "High", else 4. */
  function StockTenths(risk: string): int {
    if risk == "High" then 7 else 4
  }

  /** The three rounded percentages for an equity share `e`: 70/30 or 40/60
      between stocks and funds, the rest to debt and gold. Rounding to one
      decimal never changes them. */
  function Split(e: int, high: bool): (a: AssetAllocation)
    ensures a.safeDebtGold == 100.0 - e as real
    ensures high ==> a.stocks == 0.7 * e as real && a.mutualFunds == 0.3 * e as real
    ensures !high ==> a.stocks == 0.4 * e as real && a.mutualFunds == 0.6 * e as real
  {
    var stockShare := if high then 0.70 else 0.40;
    var mfShare := if high then 0.30 else 0.60;
    AllocationRounding(e, stockShare, mfShare);
    AssetAllocation(RoundTenths(e as real * stockShare), RoundTenths(e as real * mfShare), RoundTenths(100.0 - e as real))
  }

  function GetAssetAllocation(p: UserProfile): (a: AssetAllocation)
    ensures var e := EquityPercent(p.age.GetOr(DefaultAge), p.riskAppetite.GetOr(DefaultRisk));
      && a.safeDebtGold == 100.0 - e as real
      && a.stocks + a.mutualFunds == e as real
      && (p.riskAppetite == Some("High") ==> a.stocks == 0.7 * e as real && a.mutualFunds == 0.3 * e as real)
      && (p.riskAppetite != Some("High") ==> a.stocks == 0.4 * e as real && a.mutualFunds == 0.6 * e as real)
    ensures a.stocks + a.mutualFunds + a.safeDebtGold == 100.0
    ensures 20.0 <= a.stocks + a.mutualFunds <= 90.0
    ensures a.stocks >= 0.0 && a.mutualFunds >= 0.0 && a.safeDebtGold >= 10.0
  {
    var risk := p.riskAppetite.GetOr(DefaultRisk);
    assert risk == "High" <==> p.riskAppetite == Some("High");
    Split(EquityPercent(p.age.GetOr(DefaultAge), risk), risk == "High")
  }

  /** A whole number of tenths survives rounding to one decimal. */
  lemma TenthsExact(k: int)
    ensures RoundTenths(k as real / 10.0) == k as real / 10.0
  {
    assert IsIntegral(k as real / 10.0 * 10.0);
  }

  /** With a whole-number equity percentage and a split in tenths, rounding the
      three outputs to one decimal changes nothing. */
  lemma AllocationRounding(e: int, stockShare: real, mfShare: real)
    requires (stockShare == 0.7 && mfShare == 0.3) || (stockShare == 0.4 && mfShare == 0.6)
    ensures RoundTenths(e as real * stockShare) == e as real * stockShare
    ensures RoundTenths(e as real * mfShare) == e as real * mfShare
    ensures RoundTenths(100.0 - e as real) == 100.0 - e as real
  {
    var ks, km := if stockShare == 0.7 then 7 * e else 4 * e, if stockShare == 0.7 then 3 * e else 6 * e;
    assert e as real * stockShare == ks as real / 10.0;
    assert e as real * mfShare == km as real / 10.0;
    assert 100.0 - e as real == (1000 - 10 * e) as real / 10.0;
    TenthsExact(ks);
    TenthsExact(km);
    TenthsExact(1000 - 10 * e);
  }

  /** A profile without age or risk is planned as a 30-year-old "Medium" one. */
  lemma DefaultsApply(p: UserProfile)
    requires p.age.None? && p.riskAppetite.None?
    ensures GetAssetAllocation(p)
         == GetAssetAllocation(p.(age := Some(30), riskAppetite := Some("Medium")))
    ensures GetAssetAllocation(p) == AssetAllocation(28.0, 42.0, 30.0)
  {
  }

  /** Only the exact strings "High" and "Low" move equity; any other risk
      string ("high", "Aggressive", "") is planned like "Medium". */
  lemma OtherRiskIsMedium(age: int, risk: string)
    requires risk != "High" && risk != "Low"
    ensures EquityPercent(age, risk) == EquityPercent(age, "Medium")
  {
  }

  /** Worked example: a 25-year-old with "High" risk is capped at 85% equity,
      59.5% direct stocks. */
  lemma YoungHighRiskExample()
    ensures GetAssetAllocation(UserProfile(Some(25), None, None, None, Some("High"), None, None))
         == AssetAllocation(59.5, 25.5, 15.0)
  {
  }
}
