/**
 The running total of the processing loop. `Total` is the reference
 definition (the sum, in input order, of the grams of the valid components);
 `Accumulate` is the loop as a left fold from a starting total, and
 `ComputeTotal` is the loop itself.
 */
module Accumulation {
  import opened MassTables
  import opened Validation
  import opened Conversion

  function Sum(xs: seq<real>): real {
    if |xs| == 0 then 0.0 else xs[0] + Sum(xs[1..])
  }

  /** The components the loop uses, in input order. */
  function ValidEntries(t: Tables, cs: seq<Component>): (vs: seq<Component>)
    ensures |vs| <= |cs|
    ensures forall i :: 0 <= i < |vs| ==> Validate(t, vs[i]) == Valid
    ensures multiset(vs) <= multiset(cs)
  {
    if |cs| == 0 then []
    else
      assert cs == [cs[0]] + cs[1..];
      if Validate(t, cs[0]) == Valid then [cs[0]] + ValidEntries(t, cs[1..])
      else ValidEntries(t, cs[1..])
  }

  /** No valid component is dropped: each occurs among the used components
      as many times as in the input. */
  lemma {:induction false} ValidEntriesComplete(t: Tables, cs: seq<Component>, c: Component)
    requires Validate(t, c) == Valid
    ensures multiset(ValidEntries(t, cs))[c] == multiset(cs)[c]
    decreases |cs|
  {
    if |cs| > 0 {
      assert cs == [cs[0]] + cs[1..];
      ValidEntriesComplete(t, cs[1..], c);
    }
  }

  function GramsOf(t: Tables, vs: seq<Component>): (gs: seq<real>)
    requires WellFormed(t)
    requires forall i :: 0 <= i < |vs| ==> Validate(t, vs[i]) == Valid
    ensures |gs| == |vs|
    ensures forall i :: 0 <= i < |vs| ==> gs[i] == Grams(t, vs[i])
  {
    if |vs| == 0 then [] else [Grams(t, vs[0])] + GramsOf(t, vs[1..])
  }

  /** Total mass in grams of a list of components. */
  function Total(t: Tables, cs: seq<Component>): real
    requires WellFormed(t)
  {
    Sum(GramsOf(t, ValidEntries(t, cs)))
  }

  /** The loop as a left fold: the total after processing `cs` from `total`. */
  function Accumulate(t: Tables, total: real, cs: seq<Component>): real
    requires WellFormed(t)
    decreases |cs|
  {
    if |cs| == 0 then total else Accumulate(t, Step(t, total, cs[0]), cs[1..])
  }

  /** Peeling the first component off the reference total. */
  lemma {:induction false} TotalCons(t: Tables, c: Component, cs: seq<Component>)
    requires WellFormed(t)
    ensures Total(t, [c] + cs) == Contribution(t, c) + Total(t, cs)
  {
    assert ([c] + cs)[0] == c;
    assert ([c] + cs)[1..] == cs;
    if Validate(t, c) == Valid {
      var vs := ValidEntries(t, cs);
      assert ValidEntries(t, [c] + cs) == [c] + vs;
      assert ([c] + vs)[1..] == vs;
      assert GramsOf(t, [c] + vs) == [Grams(t, c)] + GramsOf(t, vs);
      assert ([Grams(t, c)] + GramsOf(t, vs))[1..] == GramsOf(t, vs);
    }
  }

  /** The total of a concatenation is the sum of the totals. */
  lemma {:induction false} TotalAppend(t: Tables, a: seq<Component>, b: seq<Component>)
    requires WellFormed(t)
    ensures Total(t, a + b) == Total(t, a) + Total(t, b)
    decreases |a|
  {
    if |a| == 0 {
      assert a + b == b;
      assert Total(t, a) == 0.0;
    } else {
      assert a == [a[0]] + a[1..];
      assert a + b == [a[0]] + (a[1..] + b);
      TotalCons(t, a[0], a[1..] + b);
      TotalCons(t, a[0], a[1..]);
      TotalAppend(t, a[1..], b);
    }
  }

  /** A single component adds its contribution. */
  lemma TotalSingle(t: Tables, c: Component)
    requires WellFormed(t)
    ensures Total(t, [c]) == Contribution(t, c)
  {
    TotalCons(t, c, []);
    assert [c] + [] == [c];
  }

  /** One iteration of the loop adds exactly the reference total of the one
      component it processes: nothing for a skipped component, its grams for
      a valid one. */
  lemma StepAddsTotal(t: Tables, total: real, c: Component)
    requires WellFormed(t)
    ensures Step(t, total, c) == total + Total(t, [c])
    ensures Validate(t, c) != Valid ==> Total(t, [c]) == 0.0
    ensures Validate(t, c) == Valid ==> Total(t, [c]) == Grams(t, c)
  {
    TotalSingle(t, c);
  }

  /** The left fold of the loop agrees with the reference total: processing
      `cs` from `total` ends at `total` plus the grams of the valid entries. */
  lemma {:induction false} AccumulateIsTotal(t: Tables, total: real, cs: seq<Component>)
    requires WellFormed(t)
    ensures Accumulate(t, total, cs) == total + Total(t, cs)
    decreases |cs|
  {
    if |cs| == 0 {
      assert Total(t, cs) == 0.0;
    } else {
      AccumulateIsTotal(t, Step(t, total, cs[0]), cs[1..]);
      TotalCons(t, cs[0], cs[1..]);
      assert cs == [cs[0]] + cs[1..];
    }
  }

  /** Extending the processed prefix by one component adds its contribution. */
  lemma PrefixStep(t: Tables, cs: seq<Component>, i: nat)
    requires WellFormed(t)
    requires i < |cs|
    ensures Total(t, cs[..i + 1]) == Total(t, cs[..i]) + Contribution(t, cs[i])
  {
    assert cs[..i + 1] == cs[..i] + [cs[i]];
    TotalAppend(t, cs[..i], [cs[i]]);
    TotalSingle(t, cs[i]);
  }

  /** The processing loop: start at zero and add the grams of each valid
      component in turn, skipping the invalid ones. */
  method ComputeTotal(t: Tables, cs: seq<Component>) returns (total: real)
    requires WellFormed(t)
    ensures total == Total(t, cs)
    ensures |cs| == 0 ==> total == 0.0
  {
    total := 0.0;
    var i := 0;
    while i < |cs|
      invariant 0 <= i <= |cs|
      invariant total == Total(t, cs[..i])
    {
      PrefixStep(t, cs, i);
      total := Step(t, total, cs[i]);
      i := i + 1;
    }
    assert cs[..i] == cs;
  }

  /** Order does not matter: any rearrangement of the components has the
      same total. */
  lemma {:induction false} TotalPermutation(t: Tables, a: seq<Component>, b: seq<Component>)
    requires WellFormed(t)
    requires multiset(a) == multiset(b)
    ensures Total(t, a) == Total(t, b)
    decreases |a|
  {
    if |a| == 0 {
      assert |b| == |multiset(b)| == 0;
      assert b == a;
    } else {
      var x := a[0];
      assert x in multiset(b);
      var j :| 0 <= j < |b| && b[j] == x;
      var rest := b[..j] + b[j + 1..];
      assert b == b[..j] + [x] + b[j + 1..];
      assert a == [x] + a[1..];
      assert multiset(rest) == multiset(b) - multiset{x};
      assert multiset(a[1..]) == multiset(a) - multiset{x};
      TotalPermutation(t, a[1..], rest);
      TotalCons(t, x, a[1..]);
      TotalAppend(t, b[..j] + [x], b[j + 1..]);
      TotalAppend(t, b[..j], [x]);
      TotalSingle(t, x);
      TotalAppend(t, b[..j], b[j + 1..]);
    }
  }

  /** With non-negative quantities and table values the total is never
      negative, and processing further components never lowers it. */
  lemma {:induction false} TotalMonotone(t: Tables, a: seq<Component>, b: seq<Component>)
    requires WellFormed(t)
    requires forall u :: u in t.unitFactors ==> t.unitFactors[u] >= 0.0
    requires forall e :: e in t.molarMass ==> t.molarMass[e] >= 0.0
    requires forall i :: 0 <= i < |b| ==> b[i].mass >= 0.0
    ensures Total(t, b) >= 0.0
    ensures Total(t, a) <= Total(t, a + b)
    decreases |b|
  {
    if |b| == 0 {
      assert Total(t, b) == 0.0;
    } else {
      TotalCons(t, b[0], b[1..]);
      assert b == [b[0]] + b[1..];
      ContributionNonNegative(t, b[0]);
      TotalMonotone(t, a, b[1..]);
    }
    TotalAppend(t, a, b);
  }
}
