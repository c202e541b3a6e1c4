/** The financial-health check: a six-month emergency fund rule, alerts for
    missing insurance, and the monthly investable surplus. */
module FinancialHealth {
  import opened Wrappers
  import opened Profiles

  datatype Status = Healthy | Critical

  datatype Priority = CriticalPriority | HighPriority

  datatype Alert =
    | EmergencyFundLow(required: real, shortfall: real)
    | NoTermInsurance
    | NoHealthInsurance

  function PriorityOf(a: Alert): Priority {
    if a.EmergencyFundLow? then CriticalPriority else HighPriority
  }

  datatype HealthReport = HealthReport(status: Status, monthlySurplus: real, alerts: seq<Alert>)

  const EmergencyMonths: real := 6.0

  function RequiredEmergencyFund(p: UserProfile): real {
    p.monthlyExpenses.GetOr(0.0) * EmergencyMonths
  }

  /** `check_health`. */
  function CheckHealth(p: UserProfile): (h: HealthReport)
    ensures var required := 6.0 * p.monthlyExpenses.GetOr(0.0);
            var fund := p.emergencyFund.GetOr(0.0);
      && (h.status == Critical <==> fund < required)
      && (fund < required ==> |h.alerts| > 0 && h.alerts[0] == EmergencyFundLow(required, required - fund))
    ensures forall i :: 0 <= i < |h.alerts| && h.alerts[i].EmergencyFundLow? ==> h.alerts[i].shortfall > 0.0
    ensures h.monthlySurplus == p.monthlyIncome.GetOr(0.0) - p.monthlyExpenses.GetOr(0.0)
    ensures |h.alerts| <= 3
    ensures |h.alerts| == (if h.status == Critical then 1 else 0)
                        + (if Lacks(p.hasTermInsurance) then 1 else 0)
                        + (if Lacks(p.hasHealthInsurance) then 1 else 0)
    ensures NoTermInsurance in h.alerts <==> Lacks(p.hasTermInsurance)
    ensures NoHealthInsurance in h.alerts <==> Lacks(p.hasHealthInsurance)
    ensures forall i, j :: 0 <= i < j < |h.alerts| ==> Rank(h.alerts[i]) < Rank(h.alerts[j])
  {
    var income := p.monthlyIncome.GetOr(0.0);
    var expenses := p.monthlyExpenses.GetOr(0.0);
    var fund := p.emergencyFund.GetOr(0.0);
    var required := RequiredEmergencyFund(p);
    var efAlerts := if fund < required then [EmergencyFundLow(required, required - fund)] else [];
    var termAlerts := if Lacks(p.hasTermInsurance) then [NoTermInsurance] else [];
    var healthAlerts := if Lacks(p.hasHealthInsurance) then [NoHealthInsurance] else [];
    HealthReport(
      if fund < required then Critical else Healthy,
      income - expenses,
      efAlerts + termAlerts + healthAlerts)
  }

  /** The fixed position of each kind of alert in the list. */
  function Rank(a: Alert): int {
    match a
    case EmergencyFundLow(_, _) => 0
    case NoTermInsurance => 1
    case NoHealthInsurance => 2
  }

  /** A fully covered profile with six months saved has nothing to fix. */
  lemma CoveredProfileIsHealthy(p: UserProfile)
    requires p.hasTermInsurance == Some(true) && p.hasHealthInsurance == Some(true)
    requires p.emergencyFund.GetOr(0.0) >= 6.0 * p.monthlyExpenses.GetOr(0.0)
    ensures CheckHealth(p).status == Healthy && CheckHealth(p).alerts == []
  {
  }
}
