/**
 Concrete inputs worked through the model: the carbon/oxygen mixture, the
 two kinds of skipped entry, and the rounding directions.
 */
module Scenarios {
  import opened Text
  import opened MassTables
  import opened Validation
  import opened Conversion
  import opened Accumulation
  import opened Rounding
  import opened Reporting

  function SampleTables(): Tables {
    Tables(map["carbon" := 12.011, "oxygen" := 15.999],
           map["gram" := 1.0, "kilogram" := 1000.0, "pound" := 453.59237])
  }

  function Mixture(): seq<Component> {
    [Component("carbon", 2.0, "mol"), Component("oxygen", 500.0, "gram")]
  }

  /** Lowercase names are their own lowercase form. */
  lemma LowerNames()
    ensures ToLower("carbon") == "carbon"
    ensures ToLower("oxygen") == "oxygen"
    ensures ToLower("unobtainium") == "unobtainium"
  {
    assert IsLowerCase("carbon");
    assert IsLowerCase("oxygen");
    assert IsLowerCase("unobtainium");
    ToLowerFixes("carbon");
    ToLowerFixes("oxygen");
    ToLowerFixes("unobtainium");
  }

  /** 2 mol of carbon at 12.011 g/mol and 500 gram of oxygen weigh
      524.022 g, with molar masses taken as exact decimals. */
  lemma MixtureTotal()
    ensures Total(SampleTables(), Mixture()) == 524.022
  {
    var t := SampleTables();
    var c := Component("carbon", 2.0, "mol");
    var o := Component("oxygen", 500.0, "gram");
    LowerNames();
    assert Contribution(t, c) == 24.022;
    assert Contribution(t, o) == 500.0;
    TotalCons(t, c, [o]);
    TotalSingle(t, o);
    assert [c] + [o] == Mixture();
  }

  /** The mixture is shown as 524.03 g (rounded up) and 1.15 lb (rounded
      down from 1.1553...). */
  lemma CarbonOxygenMixture()
    ensures FindTotalMass(SampleTables(), Mixture()) == Report(524.03, Pounds(1.15))
  {
    MixtureTotal();
    assert IsCents(524.03) by {
      assert 524.03 * 100.0 == 52403 as real;
    }
    CeilingCentsUnique(524.022, 524.03);
    assert IsCents(1.15) by {
      assert 1.15 * 100.0 == 115 as real;
    }
    FloorCentsUnique(524.022 / 453.59237, 1.15);
  }

  /** A capitalised unit is rejected although its lowercase form is a key of
      the unit table; a capitalised element name is accepted. */
  lemma UnitCaseMatters()
    ensures Validate(SampleTables(), Component("carbon", 1.0, "Gram")) == InvalidUnit
    ensures Validate(SampleTables(), Component("carbon", 1.0, "MOL")) == InvalidUnit
    ensures Validate(SampleTables(), Component("Carbon", 1.0, "gram")) == Valid
  {
    assert !IsLowerCase("Gram") by {
      assert IsUpper("Gram"[0]);
    }
    assert !IsLowerCase("MOL") by {
      assert IsUpper("MOL"[0]);
    }
    var lowered := ToLower("Carbon");
    assert lowered[0] == 'c';
    assert lowered == "carbon";
  }

  /** An unknown element with a known unit is skipped and adds nothing. */
  lemma UnknownElementSkipped(cs: seq<Component>)
    ensures Total(SampleTables(), cs + [Component("unobtainium", 3.0, "gram")])
      == Total(SampleTables(), cs)
  {
    var t := SampleTables();
    var u := Component("unobtainium", 3.0, "gram");
    LowerNames();
    assert Validate(t, u) == InvalidElement;
    TotalAppend(t, cs, [u]);
    TotalSingle(t, u);
  }

  /** A unit table that also holds "mol" does not change the mole
      conversion. */
  lemma MolKeyIgnored()
    ensures Validate(Tables(map["carbon" := 12.011], map["mol" := 5.0]),
      Component("carbon", 2.0, "mol")) == Valid &&
      Grams(Tables(map["carbon" := 12.011], map["mol" := 5.0]),
        Component("carbon", 2.0, "mol")) == 24.022
  {
    LowerNames();
  }

  /** Grams round up, pounds round down. */
  lemma RoundingDirections()
    ensures CeilingCents(10.004) == 10.01
    ensures CeilingCents(10.001) == 10.01
    ensures FloorCents(10.006) == 10.0
  {
    assert IsCents(10.01) by {
      assert 10.01 * 100.0 == 1001 as real;
    }
    assert IsCents(10.0) by {
      assert 10.0 * 100.0 == 1000 as real;
    }
    CeilingCentsUnique(10.004, 10.01);
    CeilingCentsUnique(10.001, 10.01);
    FloorCentsUnique(10.006, 10.0);
  }
}
