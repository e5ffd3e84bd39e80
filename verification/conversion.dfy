/**
 Conversion of one validated component to grams: through the molar mass for
 the unit "mol", through the unit table's factor for every other unit.
 */
module Conversion {
  import opened Text
  import opened MassTables
  import opened Validation

  /** Grams contributed by a valid component. The "mol" branch is taken on
      the exact unit string, before the unit table is consulted, so a "mol"
      key in the unit table is never used. Any other unit is looked up in
      lowercase, which on a loaded table finds the very key validation
      accepted. */
  function Grams(t: Tables, c: Component): (g: real)
    requires WellFormed(t)
    requires Validate(t, c) == Valid
    ensures c.units == Mol ==> g == t.molarMass[ToLower(c.name)] * c.mass
    ensures c.units != Mol ==> c.units in t.unitFactors && g == c.mass * t.unitFactors[c.units]
  {
    if c.units == Mol then
      t.molarMass[ToLower(c.name)] * c.mass
    else
      ToLowerFixes(c.units);
      c.mass * t.unitFactors[ToLower(c.units)]
  }

  /** What one component adds to the running total: its grams when it is
      valid, nothing when it is skipped. */
  function Contribution(t: Tables, c: Component): (g: real)
    requires WellFormed(t)
  {
    if Validate(t, c) == Valid then Grams(t, c) else 0.0
  }

  /** One iteration of the processing loop on the running total. */
  function Step(t: Tables, total: real, c: Component): (r: real)
    requires WellFormed(t)
    ensures Validate(t, c) != Valid ==> r == total
    ensures r == total + Contribution(t, c)
  {
    match Validate(t, c)
    case Valid => total + Grams(t, c)
    case InvalidUnit => total
    case InvalidElement => total
  }

  /** With non-negative quantities and table values a contribution is never
      negative, so the running total never goes down. */
  lemma ContributionNonNegative(t: Tables, c: Component)
    requires WellFormed(t)
    requires forall u :: u in t.unitFactors ==> t.unitFactors[u] >= 0.0
    requires forall e :: e in t.molarMass ==> t.molarMass[e] >= 0.0
    requires c.mass >= 0.0
    ensures Contribution(t, c) >= 0.0
  {
  }
}
