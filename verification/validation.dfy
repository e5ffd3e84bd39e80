/**
 The per-entry checks of the processing loop: the unit is checked first,
 exactly as written in the input, and only then the element, by its
 lowercased name.
 */
module Validation {
  import opened Text
  import opened MassTables

  /** A unit is known when it is a key of the unit table as written, or is
      the reserved unit "mol". No case mapping is applied. */
  predicate IsValidUnit(t: Tables, units: string) {
    units in t.unitFactors || units == Mol
  }

  /** An element is known when its lowercased name is a key of the element
      table. */
  predicate IsValidElement(t: Tables, name: string) {
    ToLower(name) in t.molarMass
  }

  /** Outcome of checking one component: used, or skipped for one reason. */
  datatype Verdict = Valid | InvalidUnit | InvalidElement

  function Validate(t: Tables, c: Component): (v: Verdict)
    ensures v == Valid <==> IsValidUnit(t, c.units) && IsValidElement(t, c.name)
    ensures v == InvalidUnit <==> !IsValidUnit(t, c.units)
    ensures v == InvalidElement <==> IsValidUnit(t, c.units) && !IsValidElement(t, c.name)
  {
    if !IsValidUnit(t, c.units) then InvalidUnit
    else if !IsValidElement(t, c.name) then InvalidElement
    else Valid
  }

  /** With a loaded unit table, any accepted unit other than "mol" is already
      in lowercase; so a unit with a capital letter in it is rejected even
      when its lowercase form is a table key, and so is "MOL". */
  lemma CapitalisedUnitRejected(t: Tables, c: Component)
    requires WellFormed(t)
    requires c.units != Mol && !IsLowerCase(c.units)
    ensures Validate(t, c) == InvalidUnit
  {
  }

  /** The element check ignores case: two components whose names lowercase
      alike and whose units agree get the same verdict. */
  lemma ElementCheckIgnoresCase(t: Tables, a: Component, b: Component)
    requires ToLower(a.name) == ToLower(b.name) && a.units == b.units
    ensures Validate(t, a) == Validate(t, b)
  {
  }

  /** The unit check comes first: when the unit is unknown the element is
      not looked at, so the verdict does not depend on the name. */
  lemma UnitCheckedFirst(t: Tables, c: Component, name: string)
    requires !IsValidUnit(t, c.units)
    ensures Validate(t, c.(name := name)) == InvalidUnit
  {
  }
}
