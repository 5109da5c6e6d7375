# Residual land value calculator — verified model of the valuation core

This project models, in Dafny, the logic of a Cape Town residual-land-value
calculator: given a land area, a zoning preset, a parking zone, a market
sale price and a base construction cost per m², and two policy levers
(inclusionary-housing percentage and density-bonus percentage), it values a
development scheme by the residual method and builds a sensitivity matrix
of the land value across inclusionary levels 0/10/20/30% and bonus levels
0/20/…/100%.

Modules (one file each):

- `Zoning` (`zoning.dfy`): the five-entry zoning catalogue, in declared
  order, and its lookup; a key outside the catalogue gives
  `Err(UnknownZoning(key))`, never a default preset.
- `Parking` (`parking.dfy`): the parking-zone construction-cost multiplier
  (PT2 × 0.85, PT1 × 0.95, anything else × 1), lifted out of the input form.
- `Valuation` (`valuation.dfy`): the constants (development charge 514.10
  per m², inclusionary cap price 15000 per m², fees 12.5%, profit 20%) and
  `CalculateMetrics`, with its algebra: the bulk split, the 0% and 100%
  inclusionary boundary cases, monotonicity in each lever, the residual as
  bulk × per-m² residual, the worked example and a negative residual.
- `Rounding` (`rounding.dfy`): `round(x, 2)` as round-half-to-even to
  hundredths on exact reals, with its error bound, idempotence and
  monotonicity.
- `Labels` (`labels.dfy`): the decimal text of a natural number, as an
  f-string writes an int, with a parse-back round trip.
- `Sensitivity` (`sensitivity.dfy`): the grid builder as a method with the
  source's nested loops, proved equal to a pure grid definition, and the
  shape, labels, cell definition and row/column monotonicity of that grid.
- `Scenario` (`scenario.dfy`): one scenario from the user's choices:
  parking adjustment, floor-factor lookup, valuation.

All money and area quantities are Dafny `real`s, so every identity holds
exactly. The source's zoning keys are the full labels shown to the user
(`"GR2 (Residential - 1.0 FF)"` and so on), not the bare codes (`"GR2"`);
the model follows the code, so looking up `"GR2"` alone fails.

## Model

| member | source | states |
|---|---|---|
| `Zoning.Find` | app.py:7-13 | scanning the catalogue succeeds iff some entry has the key, returns an entry with that key, and otherwise fails with that key |
| `Zoning.Lookup` | app.py:142 | `ZONING[key]` succeeds exactly for the catalogue's keys, returns that key's entry, and otherwise fails with `UnknownZoning(key)` (no default) |
| `Zoning.FloorFactor` | app.py:142 | `ZONING[key]["ff"]` succeeds exactly for the catalogue's keys, giving the floor factor of the entry with that key, and otherwise fails |
| `Zoning.TableHasDistinctKeys` | app.py:7-13 | the catalogue has five entries with pairwise distinct keys |
| `Zoning.FindDistinct` | app.py:7-13 | in a list whose keys are distinct, looking up entry i's key returns entry i |
| `Zoning.LookupEachPreset` | app.py:7-13 | every catalogue key looks up its own entry |
| `Zoning.FloorFactorOfEachPreset` | app.py:142 | the floor factor looked up for each catalogue key is that entry's floor factor |
| `Zoning.FloorFactorsInOrder` | app.py:7-13 | floor factors in table order are 1.0, 1.5, 1.5, 4.0, 12.0; every floor factor is positive and every coverage in (0, 1] |
| `Zoning.UnknownKeysFail` | app.py:142 | `"ZZ9"`, the bare code `"GR2"` and the empty key are not found and give the error |
| `Parking.CostMultiplier` | app.py:48-53 | the cost factor is 0.85 for PT2, 0.95 for PT1 and 1 for every other zone label, and always lies in [0.85, 1] |
| `Parking.AdjustedCost` | app.py:48-53 | the adjusted cost is base × the zone's factor, between 85% of base and base for a non-negative base, and equals base exactly for a zero base or a zone other than PT1/PT2 |
| `Parking.AdjustedCostOrder` | app.py:48-53 | for a non-negative base, PT2 ≤ PT1 ≤ Standard = base |
| `Valuation.CalculateMetrics` | app.py:70-87 | bulk is land × floor factor × (1 + bonus/100); GDV is bulk × the blended price (market on the market share, 15000 on the inclusionary share), charges are levied at 514.10 on the market share only, and the residual is bulk × the per-m² residual |
| `Valuation.OutputSigns` | app.py:71-76 | for positive land, floor factor and market price, bonus ≥ 0 and ih in [0, 100], bulk and GDV are positive and charges are not negative |
| `Valuation.BulkSplit` | app.py:72-73 | inclusionary and market bulk sum exactly to the total; inclusionary bulk is total × ih / 100; both lie in [0, total] for ih in [0, 100] |
| `Valuation.TotalBulkWithoutBonus` | app.py:71 | with no bonus, total bulk is land × floor factor |
| `Valuation.TotalBulkMonotoneInBonus` | app.py:71 | for non-negative land and floor factor, total bulk never decreases as the bonus grows |
| `Valuation.ResidualForm` | app.py:77-81 | rlv = 0.8 × gdv − 1.125 × (bulk × construction cost) − charges |
| `Valuation.NoInclusionary` | app.py:72-76 | at 0% inclusionary, gdv = bulk × market price and charges = bulk × 514.1 |
| `Valuation.AllInclusionary` | app.py:72-76 | at 100% inclusionary, gdv = bulk × 15000 and charges are 0 |
| `Valuation.GdvMonotoneInPrice` | app.py:75 | for non-negative bulk and ih ≤ 100, GDV never decreases as the market price rises |
| `Valuation.RlvMonotoneInPrice` | app.py:75-81 | for non-negative bulk and ih ≤ 100, the residual never decreases as the market price rises |
| `Valuation.RlvAntitoneInCost` | app.py:77-81 | for non-negative land and floor factor and bonus ≥ −100, the residual never increases as construction cost rises |
| `Valuation.RlvAntitoneInInclusionary` | app.py:72-81 | for non-negative bulk and a market price of at least 15000 + 514.10 / 0.8, the residual never increases as the inclusionary share rises |
| `Valuation.RlvMonotoneInInclusionaryBelowBreakEven` | app.py:72-81 | for positive bulk and a market price below 15000 + 514.10 / 0.8, the residual strictly rises with the inclusionary share |
| `Valuation.RlvMonotoneInBonus` | app.py:71-81 | for non-negative land and floor factor and a non-negative per-m² residual, the residual never decreases as the bonus grows |
| `Valuation.BonusOffsetsInclusionary` | app.py:71-81 | for positive land and floor factor, a scheme with bonus b and inclusionary ih is worth at least the plain scheme iff (1 + b/100) × per-m² residual at ih ≥ per-m² residual at 0 |
| `Valuation.WorkedExample` | app.py:70-87 | (1000, 1.0, 20, 20, 45000, 17000) gives rlv 13,996,464, bulk 1200, charges 493,536, gdv 46,800,000 |
| `Valuation.RlvCanBeNegative` | app.py:81-87 | the residual is returned unclamped: (1000, 1.0, 0, 30, 20000, 25000) gives −13,684,870 |
| `Rounding.RoundHalfEven` | app.py:100 | the result is within 1/2 of its argument, and an exact tie goes to the even integer |
| `Rounding.RoundHalfEvenNearest` | app.py:100 | any integer strictly within 1/2 of the argument is the result |
| `Rounding.RoundHalfEvenMonotone` | app.py:100 | rounding preserves order |
| `Rounding.Round2` | app.py:100 | `round(x, 2)` is within 0.005 of x and is a whole number of hundredths |
| `Rounding.Round2Exact` | app.py:100 | a value already in hundredths is unchanged |
| `Rounding.Round2Idempotent` | app.py:100 | rounding twice equals rounding once |
| `Rounding.Round2Monotone` | app.py:100 | rounding to hundredths preserves order |
| `Labels.NatToString` | app.py:105-106 | the decimal text of a natural number is non-empty, all digits, and starts with 0 only for zero |
| `Labels.ParseNatToString` | app.py:105-106 | reading the decimal text of n back gives n |
| `Labels.NatToStringInjective` | app.py:105-106 | distinct numbers get distinct texts, so distinct levels get distinct labels |
| `Sensitivity.RowCells` | app.py:97-100 | a row has one cell per bonus level, cell j being the rounded residual in millions at bonus level j |
| `Sensitivity.GridCells` | app.py:92-101 | the matrix has one row per inclusionary level, row i being the row of inclusionary level i |
| `Sensitivity.RowLabels` | app.py:105 | one row label per inclusionary level, in order, each `"{ih}% IH"` |
| `Sensitivity.ColumnLabels` | app.py:106 | one column label per bonus level, in order, each `"+{b}% Bonus"` |
| `Sensitivity.BuildSensitivityTable` | app.py:91-107 | the nested loops build exactly the 4 × 6 grid of cells, cell (i, j) from inclusionary level i and bonus level j, with the row and column labels in level order |
| `Sensitivity.LabelsInOrder` | app.py:105-106 | the labels are `"0% IH"`…`"30% IH"` and `"+0% Bonus"`…`"+100% Bonus"` |
| `Sensitivity.GridCellDefinition` | app.py:99-100 | cell (i, j) lies within 0.005 of the exact residual, in millions, at inclusionary level i and bonus level j |
| `Sensitivity.GridRowMonotone` | app.py:96-101 | along a row, cells never decrease with the bonus when that row's per-m² residual is non-negative |
| `Sensitivity.GridColumnAntitone` | app.py:96-101 | down a column, cells never increase with the inclusionary level when the market price is at least the break-even price |
| `Sensitivity.GridCornerExample` | app.py:99-100 | for 1000 m² at floor factor 1.0, price 45000 and cost 17000, the 0% IH / +0% Bonus cell is 16.36 |
| `Scenario.ScenarioMetrics` | app.py:141-151 | a scenario is valued iff its preset is in the catalogue, with that preset's floor factor and the parking-adjusted cost; otherwise the lookup's error is returned |
| `Scenario.ScenarioOfPreset` | app.py:141-151 | a scenario on catalogue entry i is valued with entry i's floor factor and the parking-adjusted cost |
| `Scenario.DefaultScenario` | app.py:39-57 | the default choices give the worked example's metrics; in PT2 the residual is 17,438,964; preset `"ZZ9"` gives the error |
| `Scenario.ReducedParkingNeverLowersValue` | app.py:48-53 | for a catalogue preset, non-negative land and base cost and bonus ≥ −100, any parking zone gives at least the standard zone's residual |

## Left out

- The user interface: page setup and styling, the sidebar widgets, the
  header, metric cards, matrix rendering and the error display around the
  main flow. These are presentation and input/output; the widgets' value
  ranges are not enforced by the core and are not assumed by the model.
- The clamping of a negative residual to zero happens only in a metric card,
  so it is not part of the model; the model keeps the residual unclamped.
- Memoisation of the grid builder: a caching concern of the UI framework;
  the builder is a pure computation without it.
- The data-frame wrapper and its colour gradient: the grid is modelled as a
  `seq<seq<real>>` with two label sequences.
- Number formatting of the metric cards (thousands separators, k and M
  suffixes).
- Binary floating point: quantities are exact reals, so the program's
  results agree with the model's only up to floating-point rounding error;
  in particular
  `Rounding.Round2` rounds the exact real half-to-even, while the program
  rounds the nearest binary float, which can differ on values that are
  exact ties in decimal but not in binary, so a grid cell can differ by
  0.01 at such a tie.
- The coverage ratio is kept in each catalogue entry but, as in the
  program, no calculation uses it.
