/** The user profile every engine reads: a key-value record in which any key
    may be absent (the `None` of `profile.get(key)`). */
module Profiles {
  import opened Wrappers

  datatype UserProfile = UserProfile(
    age: Option<int>,
    monthlyIncome: Option<real>,
    monthlyExpenses: Option<real>,
    emergencyFund: Option<real>,
    riskAppetite: Option<string>,
    hasTermInsurance: Option<bool>,
    hasHealthInsurance: Option<bool>)

  /** `not profile.get(flag)`: an absent flag counts as "not covered". */
  predicate Lacks(flag: Option<bool>) {
    flag != Some(true)
  }
}
