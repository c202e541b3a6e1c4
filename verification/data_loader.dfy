/** The one computation inside the fundamentals fetch: deriving a PEG ratio
    from the trailing and forward P/E when the provider has none. */
module DataLoader {
  import opened Wrappers

  /** Python truthiness of a numeric field: present and non-zero. */
  predicate Truthy(x: Option<real>) {
    x.Some? && x.value != 0.0
  }

  /** Both P/E values usable and implying more than 5% earnings growth. */
  predicate Derivable(trailingPe: Option<real>, forwardPe: Option<real>) {
    && Truthy(trailingPe) && Truthy(forwardPe)
    && forwardPe.value < trailingPe.value
    && trailingPe.value / forwardPe.value - 1.0 > 0.05
  }

  /** The PEG ratio stored for a ticker, given the provider's `trailingPE`,
      `forwardPE` and `pegRatio` fields. */
  function DerivePeg(trailingPe: Option<real>, forwardPe: Option<real>, pegRatio: Option<real>): (peg: Option<real>)
    ensures pegRatio.Some? ==> peg == pegRatio
    ensures peg.Some? && pegRatio.None? ==>
      && Derivable(trailingPe, forwardPe)
      && peg.value == trailingPe.value / ((trailingPe.value / forwardPe.value - 1.0) * 100.0)
    ensures peg.None? <==> (pegRatio.None? && !Derivable(trailingPe, forwardPe))
  {
    if pegRatio.None? && Truthy(trailingPe) && Truthy(forwardPe) then
      var t := trailingPe.value;
      var f := forwardPe.value;
      if f < t then
        var growth := t / f - 1.0;
        if growth > 0.05 then Some(t / (growth * 100.0)) else pegRatio
      else pegRatio
    else pegRatio
  }

  /** A derived PEG is always positive: growth above 5% with forward < trailing
      forces both P/E values to be positive. */
  lemma DerivedPegPositive(trailingPe: Option<real>, forwardPe: Option<real>)
    ensures var peg := DerivePeg(trailingPe, forwardPe, None);
      peg.Some? ==> peg.value > 0.0
  {
    var peg := DerivePeg(trailingPe, forwardPe, None);
    if peg.Some? {
      var t := trailingPe.value;
      var f := forwardPe.value;
      assert t / f > 1.05;
      PositiveForward(t, f);
      assert t > 0.0 by {
        assert t == (t / f) * f;
      }
      assert (t / f - 1.0) * 100.0 > 5.0;
    }
  }

  lemma PositiveForward(t: real, f: real)
    requires f != 0.0 && f < t && t / f > 1.05
    ensures f > 0.0
  {
  }

  /** Worked example: P/E 30 now and 20 forward is 50% growth, PEG 0.6. */
  lemma DerivePegExample()
    ensures DerivePeg(Some(30.0), Some(20.0), None) == Some(0.6)
  {
  }
}
