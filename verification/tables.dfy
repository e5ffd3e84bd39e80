/**
 The data the mass calculation works on: the two reference tables and one
 input component. The tables are the values the program's loaders leave in
 its two hash maps; the component is one entry of the input's "components"
 array, with its fields already extracted.
 */
module MassTables {
  import opened Text

  /** The reserved unit that is converted through the molar mass. */
  const Mol: string := "mol"

  /** The unit-table key whose factor converts grams to pounds for display. */
  const Pound: string := "pound"

  /** `molarMass`: lowercase element name to grams per mole.
      `unitFactors`: unit name to grams per unit. */
  datatype Tables = Tables(molarMass: map<string, real>, unitFactors: map<string, real>)

  /** One entry of the input: element name, quantity ("mass") and unit name. */
  datatype Component = Component(name: string, mass: real, units: string)

  /** What the unit loader guarantees: it lowercases every key it stores. */
  predicate WellFormed(t: Tables) {
    forall u :: u in t.unitFactors ==> IsLowerCase(u)
  }

  /** The unit loader: each `name,factor` row is stored under its lowercased
      name, a later row overwriting an earlier one with the same key. */
  function LoadUnits(rows: seq<(string, real)>): (m: map<string, real>)
    ensures forall u :: u in m ==> IsLowerCase(u)
    ensures forall i :: 0 <= i < |rows| ==> ToLower(rows[i].0) in m
    ensures forall u :: u in m ==> exists i :: 0 <= i < |rows| && ToLower(rows[i].0) == u
    ensures |rows| > 0 ==> m[ToLower(rows[|rows| - 1].0)] == rows[|rows| - 1].1
  {
    if |rows| == 0 then map[]
    else
      var m := LoadUnits(rows[..|rows| - 1]);
      var last := rows[|rows| - 1];
      assert forall i :: 0 <= i < |rows| - 1 ==> rows[..|rows| - 1][i] == rows[i];
      m[ToLower(last.0) := last.1]
  }

  /** Every row's factor is kept unless a later row has a name with the same
      lowercase form: the factor stored under a key is that of the last row
      naming it. */
  lemma {:induction false} LoadUnitsLastWins(rows: seq<(string, real)>, i: int)
    requires 0 <= i < |rows|
    requires forall j :: i < j < |rows| ==> ToLower(rows[j].0) != ToLower(rows[i].0)
    ensures LoadUnits(rows)[ToLower(rows[i].0)] == rows[i].1
    decreases |rows|
  {
    if i < |rows| - 1 {
      var init := rows[..|rows| - 1];
      assert forall j :: 0 <= j < |init| ==> init[j] == rows[j];
      LoadUnitsLastWins(init, i);
    }
  }
}
