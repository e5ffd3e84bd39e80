/**
 Rounding to two decimal places, as `BigDecimal` does it with a scale of 2:
 toward positive infinity (CEILING) for the grams figure and toward negative
 infinity (FLOOR) for the pounds figure.
 */
module Rounding {

  /** A value with at most two decimal places: a whole number of hundredths. */
  predicate IsCents(x: real) {
    (x * 100.0).Floor as real == x * 100.0
  }

  /** The least multiple of 0.01 that is at least `x`. */
  function CeilingCents(x: real): (r: real)
    ensures IsCents(r)
    ensures x <= r < x + 0.01
  {
    var y := x * 100.0;
    var n := y.Floor;
    assert n as real <= y < n as real + 1.0;
    var k := if n as real == y then n else n + 1;
    assert y <= k as real < y + 1.0;
    var r := k as real / 100.0;
    assert r * 100.0 == k as real;
    assert (r * 100.0).Floor == k;
    r
  }

  /** The greatest multiple of 0.01 that is at most `x`. */
  function FloorCents(x: real): (r: real)
    ensures IsCents(r)
    ensures r <= x < r + 0.01
  {
    var y := x * 100.0;
    var n := y.Floor;
    assert n as real <= y < n as real + 1.0;
    var r := n as real / 100.0;
    assert r * 100.0 == n as real;
    assert (r * 100.0).Floor == n;
    r
  }

  /** Two whole numbers of hundredths closer than 0.01 are equal. */
  lemma CentsCloserThanACentAreEqual(a: real, b: real)
    requires IsCents(a) && IsCents(b)
    requires a - 0.01 < b < a + 0.01
    ensures a == b
  {
    var m := (a * 100.0).Floor;
    var n := (b * 100.0).Floor;
    assert m - 1 < n < m + 1;
  }

  /** `CeilingCents` is the only value with two decimals in [x, x + 0.01):
      it is therefore the least such value at or above `x`. */
  lemma CeilingCentsUnique(x: real, y: real)
    requires IsCents(y)
    requires x <= y < x + 0.01
    ensures CeilingCents(x) == y
  {
    CentsCloserThanACentAreEqual(CeilingCents(x), y);
  }

  lemma CeilingCentsLeast(x: real, y: real)
    requires IsCents(y) && x <= y
    ensures CeilingCents(x) <= y
  {
    var r := CeilingCents(x);
    if y < r {
      CentsCloserThanACentAreEqual(r, y);
    }
  }

  /** A value already at two decimals is kept as it is. */
  lemma CeilingCentsKeepsCents(x: real)
    requires IsCents(x)
    ensures CeilingCents(x) == x
  {
    CeilingCentsUnique(x, x);
  }

  /** `FloorCents` is the only value with two decimals in (x - 0.01, x]: it
      is therefore the greatest such value at or below `x`. */
  lemma FloorCentsUnique(x: real, y: real)
    requires IsCents(y)
    requires y <= x < y + 0.01
    ensures FloorCents(x) == y
  {
    CentsCloserThanACentAreEqual(FloorCents(x), y);
  }

  lemma FloorCentsGreatest(x: real, y: real)
    requires IsCents(y) && y <= x
    ensures y <= FloorCents(x)
  {
    var r := FloorCents(x);
    if r < y {
      CentsCloserThanACentAreEqual(r, y);
    }
  }

  lemma FloorCentsKeepsCents(x: real)
    requires IsCents(x)
    ensures FloorCents(x) == x
  {
    FloorCentsUnique(x, x);
  }

  /** The two roundings meet at a value with two decimals and otherwise lie
      exactly one hundredth apart: the grams figure is an upper bound, the
      pounds figure a lower bound. */
  lemma CeilingAboveFloor(x: real)
    ensures FloorCents(x) <= x <= CeilingCents(x)
    ensures IsCents(x) <==> FloorCents(x) == CeilingCents(x)
    ensures !IsCents(x) ==> CeilingCents(x) == FloorCents(x) + 0.01
  {
    if IsCents(x) {
      CeilingCentsKeepsCents(x);
      FloorCentsKeepsCents(x);
    } else {
      var f := FloorCents(x);
      var g := f + 0.01;
      var n := (f * 100.0).Floor;
      assert g * 100.0 == n as real + 1.0;
      assert (g * 100.0).Floor == n + 1;
      assert f < x;
      CeilingCentsUnique(x, g);
    }
  }
}
