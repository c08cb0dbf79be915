# CO2 offset calculator — a Dafny model of its calculation core

The application reads a table of activities (`Source`, `Amount`). It turns
each row into a CO2 mass with a fixed table of emission factors, sums the
masses per source and in total, and draws the total on a half-dial gauge
with four benchmark bands. It then divides the total by the yearly
absorption of the reference tree of the selected Indian state or union
territory, which gives the number of trees that offset it. This project
models that core as pure functions over sequences and maps and proves its
properties:

- `strings.dfy` (module `Strings`) covers the parts of Python's `str` that the core relies on:
  - the order `<`, used by `sorted()` and by the key order of pandas' `groupby`;
  - `sorted()` of a list of names;
  - `strip()`, with Python's set of white-space characters.
- `tables.dfy` (module `Tables`) holds the static data:
  - the emission factors;
  - the region table, built from its dict literal, where a repeated key keeps the value written last;
  - the sorted region list;
  - the gauge cap and the benchmark bands.
- `emissions.dfy` (module `Emissions`) models `calculate_emissions`:
  - the per-row masses;
  - the grouping, which keeps one row per source in increasing source order;
  - the total;
  - the filter that keeps positive groups only.
- `gauge.dfy` (module `Gauge`) covers the arithmetic of `generate_gauge`:
  - the clamp to the cap;
  - the angle of a mass;
  - the wedge of each band;
  - the pointer;
  - the caption, which shows the total uncapped.
- `offset.dfy` (module `Offset`) models the checks and the division in `calculate`. Each message box becomes an error value of the result.

Quantities are `real`, not IEEE floats. A row is typed: its `Source` is a
string and its `Amount` a number. `CalculateWith` takes the region table and
the factor table as parameters. `Calculate` applies it to the application's
own tables.

Two things the code does not do, and what the model proves in their place:

- **No band classification.** The code has no function that returns the band of a total; it only draws each band's wedge and the pointer. The model proves what the drawing implies: below the cap, the pointer lies in the wedge of the band that holds the total (`Gauge.PointerInBandWedge`).
- **No validation of the tables.** The code checks none of its tables at load time. The model proves instead that the fixed tables are well formed:
  - the bands tile the range from 0 to the cap;
  - every factor is non-negative;
  - every absorption is positive.

Negative amounts are accepted, as in the code. Only an exactly zero total
is refused, so a negative total yields a negative tree count
(`Offset.NegativeTotalAccepted`).

## Model

| member | source | states |
|---|---|---|
| Strings.Less | expt8_mini-proj.py:66 | Python's `<` on `str` is lexicographic on code points, so a proper prefix comes before every longer string that extends it |
| Strings.LessTransitive | expt8_mini-proj.py:66 | Python's string order is transitive |
| Strings.LessTotal | expt8_mini-proj.py:66 | any two different strings are ordered one way or the other |
| Strings.Sort | expt8_mini-proj.py:66 | `sorted()` returns a non-decreasing list with the same multiset of names |
| Strings.SortDistinct | expt8_mini-proj.py:66 | sorting distinct names gives a strictly increasing list of the same length, holding exactly those names |
| Strings.IsSpace | expt8_mini-proj.py:256 | space, tab, newline and carriage return are white space to `strip()`; ASCII letters and digits are not |
| Strings.SpaceRanges | expt8_mini-proj.py:256 | the characters `strip()` removes are exactly the code points of Unicode's white-space ranges that Python's `isspace()` accepts |
| Strings.Strip | expt8_mini-proj.py:256 | `strip()` leaves no white space at either end, and is empty exactly when the input is all white space |
| Strings.StripFrame | expt8_mini-proj.py:256 | the input is the stripped text with white space before and after it |
| Strings.StripIdempotent | expt8_mini-proj.py:256 | stripping twice is stripping once |
| Tables.ToDict | expt8_mini-proj.py:27-64 | the dict literal's keys are exactly the keys written, and each value is one written for that key |
| Tables.ToDictLastWins | expt8_mini-proj.py:27-64 | a key written more than once keeps the value written last |
| Tables.AbsorptionPositive | expt8_mini-proj.py:27-64 | every region's tree absorbs a positive mass, so the division in `calculate` is always defined |
| Tables.RegionNamesNonEmpty | expt8_mini-proj.py:27-64 | no region is named by the empty string |
| Tables.DictKeys | expt8_mini-proj.py:66 | `keys()` lists each key of the literal once and nothing else |
| Tables.StatesUtList | expt8_mini-proj.py:66 | the region list is strictly increasing and holds exactly the keys of the region table |
| Tables.FactorsNonNegative | expt8_mini-proj.py:14-25 | every emission factor is non-negative |
| Tables.MassRangesTile | expt8_mini-proj.py:69-76 | the four bands start at 0 and end at `MAX_GAUGE_KG`; each has positive width, and each ends where the next begins |
| Tables.TilesCover | expt8_mini-proj.py:71-76 | bands that tile a range leave no gap: every mass in it lies in some band |
| Tables.TilesOrdered | expt8_mini-proj.py:71-76 | a later band starts at or after the end of an earlier one |
| Tables.TilesPartition | expt8_mini-proj.py:71-76 | a mass in the range lies in exactly one band |
| Emissions.Factor | expt8_mini-proj.py:86 | `co2_factors.get(source, 0)`: a source without a factor gets 0, and non-negative factors give a non-negative result |
| Emissions.RowMass | expt8_mini-proj.py:86 | a row whose source has no factor has mass 0; a non-negative amount with non-negative factors has a non-negative mass |
| Emissions.Masses | expt8_mini-proj.py:85-87 | the `CO2_Emission_kg` column has one mass per row of the table |
| Emissions.MassesAt | expt8_mini-proj.py:85-87 | each row's mass is its amount times its source's factor, or 0 when the source has no factor |
| Emissions.UnknownSourceHasNoMass | expt8_mini-proj.py:86 | a row whose source has no factor contributes exactly 0 |
| Emissions.SourceTotalsMeaning | expt8_mini-proj.py:88 | the per-source sums have an entry exactly for the sources that occur, each equal to the sum of that source's row masses |
| Emissions.SourceTotalsSize | expt8_mini-proj.py:88 | there is one per-source entry per distinct source |
| Emissions.TableExtensionality | expt8_mini-proj.py:88 | a table with strictly increasing sources is determined by its source-to-mass dictionary |
| Emissions.AddTo | expt8_mini-proj.py:88 | adding a mass to a source of a sorted table keeps it sorted, adds the mass to that source only, and adds it to the table's sum |
| Emissions.Group | expt8_mini-proj.py:88 | `groupby().sum()` has strictly increasing sources, one row per distinct source holding that source's sum, and the same grand sum as the rows |
| Emissions.Positive | expt8_mini-proj.py:90 | the filter keeps exactly the rows of positive mass; when the table's sources increase, the result's sources increase too |
| Emissions.PositiveView | expt8_mini-proj.py:90 | filtering the table keeps exactly the positive entries of its dictionary |
| Emissions.CalculateEmissions | expt8_mini-proj.py:83-90 | the total is the sum of all row masses, zero and negative groups included; the per-source table lists, in increasing source order, exactly the sources of positive summed mass with their sums |
| Emissions.EmptyInput | expt8_mini-proj.py:83-90 | no rows give a total of 0 and an empty table |
| Emissions.PerSourceSumsToTotal | expt8_mini-proj.py:88-90 | with non-negative factors and amounts, the filtered table still sums to the total |
| Emissions.ScaleTotal | expt8_mini-proj.py:86-89 | multiplying every amount by `k` multiplies the total by `k` |
| Emissions.DropUnknownTotals | expt8_mini-proj.py:86-88 | a source without a factor sums to 0, and removing its rows leaves every other source's sum |
| Emissions.UnknownSourceIgnored | expt8_mini-proj.py:86-90 | rows of a source without a factor never reach the per-source table and change nothing in the result |
| Gauge.DisplayMass | expt8_mini-proj.py:95 | the displayed mass is the smaller of the total and the cap |
| Gauge.AngleOf | expt8_mini-proj.py:104-105 | a mass between 0 and the cap has an angle on the half-dial, between 0 and 180 degrees |
| Gauge.AngleEnds | expt8_mini-proj.py:104-105 | the dial maps 0 kg to 180 degrees and the cap to 0 degrees |
| Gauge.AngleDecreasing | expt8_mini-proj.py:104-105 | a heavier mass has a strictly smaller angle |
| Gauge.PointerAngle | expt8_mini-proj.py:116 | for a non-negative total the pointer lies in [0, 180] degrees, and it is 0 once the total reaches the cap |
| Gauge.PointerMonotone | expt8_mini-proj.py:116 | a larger total never gives a larger pointer angle |
| Gauge.PointerUncapped | expt8_mini-proj.py:116 | below the cap the pointer shows the total itself |
| Gauge.WedgeOf | expt8_mini-proj.py:104-107 | a band of positive width gives a wedge of positive angle, with the band's caption and colour |
| Gauge.Wedges | expt8_mini-proj.py:103-108 | one wedge per band, in the bands' order |
| Gauge.WedgesTile | expt8_mini-proj.py:103-105 | bands tiling a range give wedges tiling the matching arc |
| Gauge.GaugeWedgesTile | expt8_mini-proj.py:103-105 | the four wedges cover the arc from 180 to 0 degrees without gap or overlap |
| Gauge.PointerInBandWedge | expt8_mini-proj.py:103-116 | below the cap, the pointer lies inside the wedge of the band that holds the total |
| Gauge.GenerateGauge | expt8_mini-proj.py:92-123 | one wedge per band, together tiling the dial from 180 down to 0 degrees. Below the cap the pointer is at the angle of the total; from the cap on it is at 0, and for a non-negative total it is within the dial. The caption shows the uncapped total |
| Offset.TreesRequired | expt8_mini-proj.py:266 | the trees' yearly absorption adds up to the total, and the count has the total's sign |
| Offset.TreesProportional | expt8_mini-proj.py:266 | the tree count is proportional to the total |
| Offset.OffsetsSign | expt8_mini-proj.py:266 | with a positive absorption, the tree count is positive exactly when the total is |
| Offset.CalculateWith | expt8_mini-proj.py:252-268 | it fails with no data exactly when nothing was uploaded. It fails with an invalid region exactly when the stripped selection is not a key. It fails with a zero total exactly when the total is 0. Otherwise it reports the region, its tree, the emissions, the tree count offsetting the total, and the gauge of the total |
| Offset.Calculate | expt8_mini-proj.py:252-268 | with the application's tables, an invalid region is reported exactly when the stripped selection is not a region. A report always divides by a positive absorption, and its tree count has the sign of the total |
| Offset.BlankSelectionRejected | expt8_mini-proj.py:256-259 | a blank selection is refused when no region has the empty name |
| Offset.BlankRegionRejected | expt8_mini-proj.py:256-259 | with the application's region table, a blank selection is always refused |
| Offset.SurroundingSpaceIgnored | expt8_mini-proj.py:256 | white space around the selection does not change the outcome |
| Offset.NegativeTotalAccepted | expt8_mini-proj.py:262-266 | a negative total for a valid region is not refused and gives a negative tree count |
| Offset.ScaledSucceeds | expt8_mini-proj.py:261-266 | multiplying every amount by a non-zero `k` keeps a report a report, for the same region, with the total multiplied by `k` |

## Left out

- The Tk window, the file dialog, the table preview and `mainloop` are user interface. The model takes the rows and the text of the region box as parameters.
- Reading the CSV file and checking its columns is file I/O. The rows are given as typed values, so a missing column, a non-numeric or NaN `Amount`, and a NaN `Source` are not modelled.
- The PDF report is layout, the clock, temporary files and a save dialog. `Offset.Report` carries what `calculate` hands to it.
- The gauge's drawing is not modelled: the trigonometry, the label placement (`label_angle`), the image buffer and the figure limits. Only the linear angles are.
- The `:,.0f` and `:,.2f` formatting of numbers is presentation only.
- IEEE floating-point rounding is not modelled: all quantities are exact reals.
- The globals `uploaded_data` and `gauge_buffer`, and the `try`/`except` that turns an exception into a message box, are not modelled. The data is passed in, and the model raises no exceptions.
- Offset.ScaledSucceeds: states that scaling the amounts keeps the outcome a report with the total scaled. It does not state that the tree count is scaled; that step is `Offset.TreesProportional` applied to the two totals.
