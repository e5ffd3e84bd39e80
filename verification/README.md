# Total mass of a mixture of elements — Dafny model

This project models the mass calculation of `FindTotalMass`. The program
reads a list of components, each an element name, a quantity ("mass") and a
unit. It checks each component against two reference tables. The first maps
an element name to its molar mass in g/mol. The second maps a unit name to
its factor in grams per unit. Each accepted component is converted to grams,
and the grams are added exactly into a running total that starts at zero.
The total is then reported twice: in grams, rounded up to two decimals, and
in pounds (divided by the table's `pound` factor), rounded down to two
decimals.

The modules follow the steps of the calculation:

- `Text`: lowercasing of names (`ToLower`), as Java's `toLowerCase` does it
  for ASCII letters.
- `MassTables`: the two tables (`Tables`), one input component (`Component`),
  the reserved unit `"mol"`, the `"pound"` key, and the guarantee of the unit
  loader that every key is lowercase (`WellFormed`, `LoadUnits`).
- `Validation`: the unit check, then the element check (`Validate`).
- `Conversion`: grams of a valid component (`Grams`) and one loop step (`Step`).
- `Accumulation`: the reference total (`Total`), which sums the grams of the
  valid components in input order. Also the loop as a left fold
  (`Accumulate`) and as a method with a loop invariant (`ComputeTotal`).
- `Rounding`: two-decimal ceiling and floor on exact reals.
- `Reporting`: the pounds conversion (`ConvertToLbs`) and the whole report
  (`FindTotalMass`).
- `Scenarios`: worked inputs. These are a carbon/oxygen mixture, entries that
  get skipped, and the two rounding directions.

`BigDecimal` values and the `double` values the program converts into
`BigDecimal` are both modelled as exact `real`s.

Points where the code behaves in ways worth stating plainly:

- The unit check is exact and case-sensitive. A unit is accepted only if it
  equals `"mol"` or is a key of the unit table exactly as written
  (src/FindTotalMass.java:191, 87). The element name is lowercased before its
  check (line 77), and so is the unit used for the factor lookup (line 94),
  but the unit check itself lowercases nothing. So `"MOL"` and `"Gram"` are
  rejected.
- The code does not require molar masses or unit factors to be positive, and
  it accepts negative quantities. So the total only grows when the inputs are
  non-negative, and `Accumulation.TotalMonotone` states it under that
  condition.
- A missing or zero `pound` factor is not ruled out in advance. The code
  fails at the point of conversion (src/FindTotalMass.java:166), after the
  grams figure has been printed. `Reporting.ConvertToLbs` gives these two
  failures as `MissingPoundFactor` and `DivisionByZero`.

## Model

| member | source | states |
|---|---|---|
| Text.ToLowerFixes | src/FindTotalMass.java:94 | lowercasing returns the string unchanged exactly when it has no capital letter, so looking up the lowercased form of an accepted unit finds the same key |
| MassTables.LoadUnits | src/FindTotalMass.java:265-273 | every key the unit loader stores is lowercase; each row's lowercased name becomes a key; every key comes from some row; the last row's factor is stored under its key |
| MassTables.LoadUnitsLastWins | src/FindTotalMass.java:265-273 | the factor stored under a key is that of the last row whose name lowercases to it, so every row's factor is kept unless a later row overwrites it |
| Validation.Validate | src/FindTotalMass.java:76-103 | a component is used exactly when its unit is `"mol"` or an exact key of the unit table and its lowercased name is a key of the element table; a bad unit is reported as such whatever the element, and a bad element is reported only when the unit is good |
| Validation.CapitalisedUnitRejected | src/FindTotalMass.java:190-195 | with lowercase table keys, a unit other than `"mol"` that contains a capital letter is always rejected: no lowercasing happens before the unit check |
| Validation.ElementCheckIgnoresCase | src/FindTotalMass.java:77-83 | two components whose names lowercase to the same string and whose units are equal get the same verdict |
| Validation.UnitCheckedFirst | src/FindTotalMass.java:80-83 | when the unit is unknown, the verdict is an invalid unit whatever the element name is |
| Conversion.Grams | src/FindTotalMass.java:86-95 | a `"mol"` component weighs molar mass of its lowercased name times quantity, even if the unit table has a `"mol"` key; any other valid unit is an exact table key, and the component weighs quantity times that key's factor, which the lowercased lookup finds |
| Conversion.ContributionNonNegative | src/FindTotalMass.java:88-94 | with non-negative quantity, molar masses and factors, a component never lowers the total |
| Accumulation.ValidEntries | src/FindTotalMass.java:74-104 | the components the loop uses are all valid, are no more than the input, and form a sub-multiset of it |
| Accumulation.ValidEntriesComplete | src/FindTotalMass.java:80-95 | no valid component is dropped: each one is used exactly as often as it occurs in the input |
| Accumulation.TotalCons | src/FindTotalMass.java:74-104 | the total of a list is the first component's contribution plus the total of the rest |
| Accumulation.TotalAppend | src/FindTotalMass.java:74-104 | the total of two lists joined together is the sum of their totals |
| Accumulation.StepAddsTotal | src/FindTotalMass.java:80-103 | one iteration of the loop adds the reference total of the single component it processes: zero when the component is skipped, its grams when it is valid |
| Accumulation.AccumulateIsTotal | src/FindTotalMass.java:65-104 | the loop, run from any starting total, ends at that total plus the sum of the grams of the valid components in input order |
| Accumulation.ComputeTotal | src/FindTotalMass.java:65-104 | the loop starts at zero and returns the sum of the grams of the valid components in input order; an empty list gives 0 |
| Accumulation.TotalPermutation | src/FindTotalMass.java:74-104 | any rearrangement of the components gives the same exact total |
| Accumulation.TotalMonotone | src/FindTotalMass.java:88-94 | with non-negative quantities and table values, the total is non-negative and processing more components never decreases it |
| Rounding.CeilingCents | src/FindTotalMass.java:107 | the grams figure has two decimals and lies in [total, total + 0.01) |
| Rounding.CeilingCentsUnique | src/FindTotalMass.java:107 | it is the only two-decimal value in [total, total + 0.01) |
| Rounding.CeilingCentsLeast | src/FindTotalMass.java:107 | it is the least two-decimal value at or above the total |
| Rounding.CeilingCentsKeepsCents | src/FindTotalMass.java:107 | a total that already has two decimals is shown unchanged |
| Rounding.FloorCents | src/FindTotalMass.java:166 | the pounds figure has two decimals and lies in (q - 0.01, q], where q is the exact quotient |
| Rounding.FloorCentsUnique | src/FindTotalMass.java:166 | it is the only two-decimal value in (q - 0.01, q] |
| Rounding.FloorCentsGreatest | src/FindTotalMass.java:166 | it is the greatest two-decimal value at or below the quotient |
| Rounding.FloorCentsKeepsCents | src/FindTotalMass.java:166 | a quotient that already has two decimals is kept |
| Rounding.CeilingAboveFloor | src/FindTotalMass.java:107-108 | ceiling and floor agree exactly on values that have two decimals, and otherwise differ by exactly 0.01 with the value between them |
| Reporting.ConvertToLbs | src/FindTotalMass.java:165-167 | without a `pound` key the conversion fails, and likewise with a zero factor; otherwise it returns the quotient floored to two decimals |
| Reporting.FindTotalMass | src/FindTotalMass.java:65-108 | the reported grams are the exact total rounded up to two decimals; the pounds figure is present exactly when the pound factor is present and non-zero, and is then the total over that factor rounded down to two decimals |
| Reporting.ReportIgnoresOrder | src/FindTotalMass.java:74-108 | reordering the components does not change the report |
| Reporting.EmptyReport | src/FindTotalMass.java:65-108 | an empty component list reports 0 grams and, with a usable pound factor, 0 pounds |
| Scenarios.MixtureTotal | src/FindTotalMass.java:86-95 | 2 mol of carbon (12.011 g/mol) plus 500 gram of oxygen totals exactly 524.022 g in the model, where molar masses are exact decimals (the program's `double` molar mass makes it 524.02199999…; the report is the same) |
| Scenarios.CarbonOxygenMixture | src/FindTotalMass.java:107-108 | that mixture is reported as 524.03 g and 1.15 lb with a pound factor of 453.59237 |
| Scenarios.UnitCaseMatters | src/FindTotalMass.java:190-195 | `"Gram"` and `"MOL"` are rejected although `"gram"` is a table key; `"Carbon"` is accepted as an element |
| Scenarios.UnknownElementSkipped | src/FindTotalMass.java:83-99 | appending an unknown element with a known unit leaves the total unchanged |
| Scenarios.MolKeyIgnored | src/FindTotalMass.java:87-89 | a `"mol"` key in the unit table does not affect the mole conversion |
| Scenarios.RoundingDirections | src/FindTotalMass.java:107 | 10.004 and 10.001 are shown as 10.01 (rounded up); 10.006 rounds down to 10.00 |

## Left out

- Reading the element and unit CSV files (src/FindTotalMass.java:205-294) is left out because it is file I/O and line splitting. The element table is taken as a given map. The only part of the unit loader that is modelled is how it stores keys (`MassTables.LoadUnits`, on rows that are already split), which yields the lowercase-key guarantee `WellFormed`.
- Reading the JSON document and extracting its fields (src/FindTotalMass.java:68-77, 84) is left out. Each component arrives as an already-extracted record. Fatal failures are not modelled. A missing file, a parse error, or a missing `units` or `name` field (read for every entry, lines 76-77) aborts the run with no total. The `mass` field is read only for entries that pass both checks (line 84, inside lines 80 and 83), so a missing or non-numeric mass aborts the run only for such an entry; a skipped entry's mass is never read.
- Console messages, the per-entry diagnostics, `showErrorMessage` and the catch blocks (src/FindTotalMass.java:97-102, 106-124, 138-143) are left out. They print text and compute no value. A skipped component appears in the model only as a verdict that leaves the total unchanged.
- The `double` round trips are treated as exact. The mole count is parsed with `Double.parseDouble` and turned back into a string, and the molar mass is stored as a `Double` and widened with `new BigDecimal(double)` (src/FindTotalMass.java:89, 178-179). Binary floating-point rounding in these steps is not modelled. Nor is overflow: a `mol` quantity beyond the `double` range becomes `"Infinity"` (lines 89, 179), which `new BigDecimal` rejects, so the program aborts the run where the model adds an exact product.
- The scale and trailing zeros of the printed `BigDecimal` strings are left out. The model gives the rounded values, not their text.
- Text.ToLower: only the ASCII letters A-Z are mapped. The locale-dependent Unicode case mapping of Java's `toLowerCase` is not modelled.
- Accumulation.TotalMonotone: states that the total never decreases only when quantities and table values are non-negative, because the code accepts negative quantities and does not check table values.
