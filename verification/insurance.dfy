/** The insurance advisor: term cover of 15x annual income, a 10-lakh health
    cover floor, and "MUST BUY" rows for whatever cover the profile lacks. */
module Insurance {
  import opened Wrappers
  import opened Numerics
  import opened Text
  import opened Profiles

  datatype Kind = TermInsurance | HealthInsurance | HealthAddOn

  datatype Action = MustBuy | HighlyRecommended

  /** The figure each row's details text states. */
  datatype Details =
    | TermCover(crores: real)
    | HealthCover(lakhs: int)
    | SuperTopUp(lakhs: int)

  /** One recommendation row; the premium estimate is kept as the display
      text the source builds, since that text is what the deduction parses. */
  datatype InsuranceRec = InsuranceRec(kind: Kind, action: Action, details: Details, estPremium: string)

  datatype Needs = Needs(termCoverNeeded: real, healthCoverNeeded: real)

  /** Comparing a missing age with 30 raises in the source. */
  datatype InsuranceError = MissingAge

  const Crore: real := 10000000.0
  const Lakh: real := 100000.0
  const BaseHealthCover: real := 1000000.0
  const TermIncomeMultiple: real := 15.0

  function AnnualIncome(p: UserProfile): (a: real)
    ensures p.monthlyIncome.None? ==> a == 0.0
    ensures p.monthlyIncome.Some? ==> a == 12.0 * p.monthlyIncome.value
  {
    p.monthlyIncome.GetOr(0.0) * 12.0
  }

  function CalculateNeeds(p: UserProfile): (n: Needs)
    ensures n.termCoverNeeded == 180.0 * p.monthlyIncome.GetOr(0.0)
    ensures n.healthCoverNeeded == 10.0 * Lakh
  {
    Needs(AnnualIncome(p) * TermIncomeMultiple, BaseHealthCover)
  }

  /** `f"₹{amount}/year"`. */
  function PremiumText(amount: nat): string {
    "₹" + DecimalString(amount) + "/year"
  }

  const AddOnPremiumText: string := "₹3,000/year"

  function TermPremium(age: int): nat {
    if age < 30 then 12000 else 25000
  }

  function HealthPremium(age: int): nat {
    if age < 30 then 15000 else 25000
  }

  function Kinds(recs: seq<InsuranceRec>): seq<Kind> {
    seq(|recs|, i requires 0 <= i < |recs| => recs[i].kind)
  }

  /** What each kind of row says for profile `p`: action, premium text, and the
      cover figure of its details. */
  predicate RowFits(p: UserProfile, rec: InsuranceRec) {
    match rec.kind
    case TermInsurance =>
      && p.age.Some?
      && rec.action == MustBuy
      && rec.estPremium == PremiumText(TermPremium(p.age.value))
      && rec.details == TermCover(RoundTenths(CalculateNeeds(p).termCoverNeeded / Crore))
    case HealthInsurance =>
      && p.age.Some?
      && rec.action == MustBuy
      && rec.estPremium == PremiumText(HealthPremium(p.age.value))
      && rec.details == HealthCover(10)
    case HealthAddOn =>
      && rec.action == HighlyRecommended
      && rec.estPremium == AddOnPremiumText
      && rec.details == SuperTopUp(50)
  }

  /** `get_recommendations`: a term row when term cover is lacking, then a
      health row and a super top-up row when health cover is lacking. */
  function GetRecommendations(p: UserProfile): (r: Result<seq<InsuranceRec>, InsuranceError>)
    ensures r.Failure? <==> p.age.None? && (Lacks(p.hasTermInsurance) || Lacks(p.hasHealthInsurance))
    ensures r.Success? ==>
      Kinds(r.value)
        == (if Lacks(p.hasTermInsurance) then [TermInsurance] else [])
         + (if Lacks(p.hasHealthInsurance) then [HealthInsurance, HealthAddOn] else [])
    ensures r.Success? ==> forall i :: 0 <= i < |r.value| ==> RowFits(p, r.value[i])
  {
    var needs := CalculateNeeds(p);
    var lacksTerm := Lacks(p.hasTermInsurance);
    var lacksHealth := Lacks(p.hasHealthInsurance);
    if p.age.None? && (lacksTerm || lacksHealth) then Failure(MissingAge)
    else
      var term :=
        if lacksTerm then
          [InsuranceRec(TermInsurance, MustBuy,
                        TermCover(RoundTenths(needs.termCoverNeeded / Crore)),
                        PremiumText(TermPremium(p.age.value)))]
        else [];
      var health :=
        if lacksHealth then
          [InsuranceRec(HealthInsurance, MustBuy,
                        HealthCover(RoundHalfEven(needs.healthCoverNeeded / Lakh)),
                        PremiumText(HealthPremium(p.age.value))),
           InsuranceRec(HealthAddOn, HighlyRecommended, SuperTopUp(50), AddOnPremiumText)]
        else [];
      assert RoundHalfEven(needs.healthCoverNeeded / Lakh) == 10 by {
        assert needs.healthCoverNeeded / Lakh == 10.0;
      }
      Success(term + health)
  }

  /** Worked example: 1,00,000 a month means 1.8 crore of term cover. */
  lemma TermCoverExample(p: UserProfile)
    requires p.monthlyIncome == Some(100000.0)
    ensures CalculateNeeds(p).termCoverNeeded == 18000000.0
    ensures RoundTenths(CalculateNeeds(p).termCoverNeeded / Crore) == 1.8
  {
    assert CalculateNeeds(p).termCoverNeeded / Crore == 1.8;
  }
}
