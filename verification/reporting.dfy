/**
 The final report: the total in grams rounded up to two decimals, and the
 total in pounds rounded down to two decimals. The grams figure is written
 before the pounds conversion is attempted, so it is present even when that
 conversion fails.
 */
module Reporting {
  import opened MassTables
  import opened Accumulation
  import opened Rounding

  /** Outcome of the pounds conversion. Without a "pound" key the lookup
      yields no divisor (a null-pointer failure in the program); a zero
      factor is a division by zero. Either failure ends the run. */
  datatype PoundsResult = Pounds(value: real) | MissingPoundFactor | DivisionByZero

  datatype Report = Report(grams: real, pounds: PoundsResult)

  /** Grams to pounds: the exact quotient by the "pound" factor, rounded
      toward negative infinity at two decimals. */
  function ConvertToLbs(t: Tables, total: real): (r: PoundsResult)
    ensures r == MissingPoundFactor <==> Pound !in t.unitFactors
    ensures r == DivisionByZero <==> Pound in t.unitFactors && t.unitFactors[Pound] == 0.0
    ensures r.Pounds? ==> IsCents(r.value)
    ensures r.Pounds? ==> r.value <= total / t.unitFactors[Pound] < r.value + 0.01
  {
    if Pound !in t.unitFactors then MissingPoundFactor
    else if t.unitFactors[Pound] == 0.0 then DivisionByZero
    else Pounds(FloorCents(total / t.unitFactors[Pound]))
  }

  /** The whole computation over already-loaded tables and already-parsed
      components. */
  function FindTotalMass(t: Tables, cs: seq<Component>): (r: Report)
    requires WellFormed(t)
    ensures IsCents(r.grams)
    ensures Total(t, cs) <= r.grams < Total(t, cs) + 0.01
    ensures r.pounds.Pounds? <==> Pound in t.unitFactors && t.unitFactors[Pound] != 0.0
    ensures r.pounds.Pounds? ==> IsCents(r.pounds.value)
    ensures r.pounds.Pounds? ==>
      r.pounds.value <= Total(t, cs) / t.unitFactors[Pound] < r.pounds.value + 0.01
  {
    var total := Total(t, cs);
    Report(CeilingCents(total), ConvertToLbs(t, total))
  }

  /** The report depends only on which components there are, not on their
      order. */
  lemma ReportIgnoresOrder(t: Tables, a: seq<Component>, b: seq<Component>)
    requires WellFormed(t)
    requires multiset(a) == multiset(b)
    ensures FindTotalMass(t, a) == FindTotalMass(t, b)
  {
    TotalPermutation(t, a, b);
  }

  /** No components: zero grams and, given a usable pound factor, zero
      pounds. */
  lemma EmptyReport(t: Tables)
    requires WellFormed(t)
    ensures FindTotalMass(t, []).grams == 0.0
    ensures Pound in t.unitFactors && t.unitFactors[Pound] != 0.0 ==>
      FindTotalMass(t, []).pounds == Pounds(0.0)
  {
    assert Total(t, []) == 0.0;
    assert IsCents(0.0);
    CeilingCentsKeepsCents(0.0);
    FloorCentsKeepsCents(0.0);
  }
}
