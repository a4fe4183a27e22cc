# bioweb radius query, modelled in Dafny

`bioweb.py` is a small Flask application that, given a point and a search
radius in kilometres, summarises two survey data sets around that point: bat
detections (long-tailed bat *Chalinolobus tuberculatus*, short-tailed bat
*Mystacina tuberculata*) and herpetofauna sightings (frogs and reptiles,
joined to a threat-status register). This project models the core of that
query logic and proves properties of it:

- `calculate_direction`: the eight-point compass label of a bearing
  (`direction.dfy`, module `Compass`).
- The row selections, date windows and nearest-record lookup shared by
  both summarisers (`observations.dfy`, module `Observations`). The lookup
  is `idxmin` on `distance_km`, so ties go to the first record.
- `process_bat_data` with `get_nearest_info` (`bats.dfy`, module `Bats`):
  - the "Both species detected" expansion;
  - the seven radius-scoped counts;
  - the nearest record and nearest roost table, for all time, 2013-2023
    and 2018-2023.
- `process_herpetofauna_data` with `get_herp_nearest_info` (`herps.dfy`,
  module `Herps`):
  - the sorted list of distinct species within the radius;
  - the threat-register join and the "category - status" display string;
  - the `value_counts` observation-type tally and its HTML and CSV
    summaries;
  - the latest date, and the nearest records;
  - the four-key sort on ordered Categoricals;
  - the "no records" result.
- The export rules of `download_bat_data`, `download_herp_data`,
  `download_bat_summary_data` and `download_herp_summary_data` (row
  selection, sort order, 0/1 flags spelled "False"/"True", header, the 404
  case), and the threat-cell highlight choice of `render_html_page`
  (`reports.dfy`, module `Reports`).
- Supporting modules:
  - `text.dfy` (module `Text`): Python's string order, decimal rendering
    of integers, `str.join`.
  - `ordering.dfy` (module `Ordering`): pandas' ordered Categorical codes,
    and a verified insertion sort that stands in for `sort_values` and
    `sorted`.
  - `wrappers.dfy`: `Option` and `Result`.

Records arrive already annotated. A record's `distanceKm` (the geodesic
distance) and `bearing` (the normalised initial bearing) from the query
point are inputs, and dates are days written as `yyyymmdd` integers.

Points where the code's behaviour is easy to misread:

- A category or status outside the priority list becomes a missing
  Categorical value. pandas sorts missing values last, so such a value
  sorts *after* "unknown", not alongside it. In the result it is a missing
  value, so it gets no highlight class.
- The herp sort is by taxa group first. A species missing from the
  register sorts after every amphibian and reptile, but *before* a
  registered species whose taxa group is outside the list, whatever that
  species' category (`Herps.UnlistedTaxaSortsAfterUnregistered`).
- A species missing from the register has category "unknown". Its
  threat-status cell gets the grey `unknown-text-color` class, not "no
  highlight".
- The two branches at `bioweb.py:740-743` return the same message with a
  count of 0. The second branch cannot be taken: species exist only if
  rows do. So the model has one "no records" case, and it arises exactly
  when no record lies within the radius.

## Model

| member | source | states |
|---|---|---|
| Compass.NormalizeBearing | bioweb.py:489-492 | An `atan2` bearing in [-180, 180] is moved by at most one whole turn into [0, 360), so its direction is never "unknown" |
| Compass.CalculateDirection | bioweb.py:493-511 | A bearing outside [0, 360) gives "unknown"; every other bearing gets the label of the one 45-degree sector it falls in, north wrapping around 0 |
| Compass.SectorBoundaries | bioweb.py:495-511 | A boundary bearing belongs to the sector clockwise of it (0 and 337.5 are north, 22.5 north-east, 67.5 east), and 360 is "unknown" |
| Text.StrLeIsTotalOrder | bioweb.py:626 | Python's code-point order on strings, which `sorted` uses, is reflexive, antisymmetric, transitive and total |
| Text.DecimalRoundTrip | bioweb.py:681 | The decimal rendering of a count reads back as that count |
| Text.SignedRoundTrip | bioweb.py:741 | The rendering of the radius in the "no records" message reads back as the radius, sign included |
| Text.IntToDecimal | bioweb.py:741 | The rendering is non-empty and starts with '-' exactly when the number is negative |
| Ordering.Categorize | bioweb.py:749-751 | A value in the category list is kept; any other value becomes missing |
| Ordering.Rank | bioweb.py:749-757 | A listed value sorts at its position in the list; a missing or unlisted value sorts after every listed one |
| Ordering.UnlistedRanksLast | bioweb.py:749-757 | Every listed value sorts strictly before every unlisted value |
| Ordering.SortBy | bioweb.py:754-757 | Under a total preorder the result is sorted and is a permutation of the input |
| Ordering.PermutationKeepsDistinct | bioweb.py:626 | Sorting a list without repeated keys leaves no repeated keys |
| Observations.Filter | bioweb.py:623 | A boolean-mask selection never returns more rows than it was given |
| Observations.FilterMembers | bioweb.py:623 | A boolean-mask selection keeps exactly the rows the mask accepts: a row is in the result if and only if it was in the input and the mask accepts it |
| Observations.FilterDisjointUnion | bioweb.py:674 | A selection accepting exactly the rows one of two exclusive selections accepts keeps as many rows as the two together, which is how the per-type counts add up |
| Observations.WiderRadiusKeepsMore | bioweb.py:533 | A wider radius keeps every record a narrower one kept, and no count over the kept rows drops |
| Observations.FirstNearest | bioweb.py:566 | `idxmin` picks a record of least distance with no equally near record before it |
| Observations.IndexOfNearest | bioweb.py:566 | The scan finds the position `idxmin` defines |
| Observations.NearestOf | bioweb.py:558-568 | A lookup reports "No <records/roosts> found<suffix>" exactly when the pool is empty, and a distance and direction otherwise |
| Observations.NearestOfIsNearest | bioweb.py:566-568 | A reported distance is attained by a pool record, whose compass direction is the one reported, and is at most every distance in the pool |
| Observations.FindNearest | bioweb.py:706-712 | The lookup as run returns the nearest-record cell `NearestOf` specifies |
| Observations.NearerInLargerPool | bioweb.py:575-586 | Searching a superset finds a record whenever the subset does, never farther away |
| Observations.WindowsNest | bioweb.py:575-586 | The 2018-2023 nearest distance is at least the 2013-2023 one, which is at least the all-time one; a window that finds a record implies the wider one does |
| Bats.ExpandWithoutBoth | bioweb.py:518-531 | Without "Both" records, both branches of the expansion give the data set unchanged |
| Bats.ExpandShape | bioweb.py:518-531 | The expansion adds one record per "Both" record, contains no "Both" record, keeps every other record, and holds a long-tailed and a short-tailed copy of each "Both" record |
| Bats.CountsOfSnoc | bioweb.py:533-543 | One more record changes each count by one exactly when it is in radius and carries that count's label |
| Bats.CountBatEvents | bioweb.py:533-543 | The counting loop yields the seven counts over the records within the radius |
| Bats.CountsOfExpansion | bioweb.py:518-543 | Over the original records, each "Both" record in radius counts twice among events and positives, and once for each species and its roosts; unknown-species records are unaffected |
| Bats.CountBounds | bioweb.py:535-543 | Roosts never exceed their species count; the three species counts never exceed the positive detections, which never exceed the events |
| Bats.CountsGrowWithRadius | bioweb.py:533-543 | No count decreases when the radius grows |
| Bats.SingleLabelRecordCountsOnce | bioweb.py:518-543 | A single-label record in radius adds one event and one to its own label's count and roost count only |
| Bats.BothRecordCountsTwice | bioweb.py:518-543 | A "Both" record in radius adds two events, two positive detections, one to each species (and roost) count, and nothing to the unknown count |
| Bats.BatRowFor | bioweb.py:554-597 | A table row is labelled with the species it was built for |
| Bats.RowsFor | bioweb.py:554-597 | The table has one row per label, and the i-th row carries the i-th label |
| Bats.GetNearestInfo | bioweb.py:558-568 | The helper returns the nearest record of the pool, or of its roosts |
| Bats.BuildBatRow | bioweb.py:570-597 | The loop body builds the species' row from the whole, unexpanded data set |
| Bats.BuildTable | bioweb.py:554-597 | The loop yields one row per label, in label order |
| Bats.ProcessBatData | bioweb.py:513-616 | The result is the counts over the expansion within the radius together with the per-label table |
| Bats.TableRows | bioweb.py:546-548 | The table has a long-tailed row, then a short-tailed row, and a third unknown-species row exactly when that count is positive |
| Bats.SingleShortTailedRecord | bioweb.py:513-597 | One short-tailed record at the origin dated 2020-06-01, radius 25: one event, one short-tailed detection, found at 0 km all time, for 2013-2023 and for 2018-2023, and "No roosts found", "No roosts found for 2013-2023" and "No roosts found for 2018-2023" in the three roost columns |
| Bats.SingleRecordCells | bioweb.py:558-568 | A pool of one non-roost record at 0 km gives a record found at 0 km in every window and the "No roosts found<suffix>" message in every roost cell |
| Bats.IgnoresOtherLabels | bioweb.py:555 | Table rows for any label other than "Both" do not depend on the "Both" records |
| Bats.RowWindowsNest | bioweb.py:570-586 | In a table row the dated windows nest, and a species' nearest roost is never nearer than its nearest record |
| Herps.EntryIndex | bioweb.py:651-659 | Finds the first register row with exactly this name, or reports there is none |
| Herps.ThreatDisplay | bioweb.py:664-668 | The display is the category alone exactly when category equals status, and otherwise the category followed by " - " and the status |
| Herps.ThreatOf | bioweb.py:651-671 | A species missing from the register gets "unknown" taxa, display, category and status; otherwise the first matching register row decides all four |
| Herps.TallySightingTypes | bioweb.py:674 | The tally lists each occurring sighting type once with its number of rows, covers every row, and is ordered by descending count |
| Herps.TallySumsToTotal | bioweb.py:674-683 | The tally's counts add up to the number of rows it counts |
| Herps.LatestDate | bioweb.py:695-699 | No rows give no date; otherwise the result is a row's date and no row is later |
| Herps.BuildHerpRow | bioweb.py:643-738 | The loop body's row has the species' register values and its in-radius common name, total, tally summaries, latest date and all-time nearest record; the dated nearest records come from the whole data set |
| Herps.RowTallyAddsUp | bioweb.py:674-686 | A row's HTML and CSV summaries come from a tally whose counts add up to the row's total |
| Herps.AllTimeMatchesWholeDataset | bioweb.py:689-703 | For a species seen in radius, the in-radius all-time nearest distance equals its nearest distance in the whole data set |
| Herps.RowWindowsNest | bioweb.py:714-722 | In a row the 2018-2023, 2013-2023 and all-time nearest distances can only shrink in that order |
| Herps.SortedSpecies | bioweb.py:626 | The species list is strictly ascending and holds exactly the species of the in-radius rows |
| Herps.SpeciesListUnique | bioweb.py:626 | Any two such species lists are equal |
| Herps.SpeciesListEmpty | bioweb.py:740-743 | The species list is empty exactly when no row is within the radius |
| Herps.SpeciesGrowWithRadius | bioweb.py:623-628 | A wider radius never drops a species from the list |
| Herps.RowOrderIsTotalPreorder | bioweb.py:754-757 | The taxa / category / status / species key is a total preorder, so the sort is well defined |
| Herps.SortedByTaxaFirst | bioweb.py:754-757 | In the sorted rows the taxa group ranks never decrease |
| Herps.UnregisteredRanksAfterListedTaxa | bioweb.py:653-656 | A species missing from the register ranks after any amphibian or reptile |
| Herps.UnregisteredSortsAfterRegistered | bioweb.py:749-757 | A species missing from the register sorts strictly after every amphibian or reptile, and after every "unknown"-taxa species with a listed category other than "unknown" |
| Herps.UnlistedTaxaSortsAfterUnregistered | bioweb.py:749-757 | A row whose taxa group is outside the list sorts strictly after a species missing from the register |
| Herps.BuildRows | bioweb.py:643-738 | The loop yields one row per listed species, in list order |
| Herps.ProcessHerpetofaunaData | bioweb.py:618-762 | No record in radius gives "No herpetofauna records found within N km." with count 0. Otherwise the count is the number of distinct species, with one row per species, sorted by the four-key order |
| Reports.ThreatHighlight | bioweb.py:408-417 | A cell gets a class exactly when its category is present, is not "Introduced and Naturalised", and is in the class table or is "unknown"; "unknown" gets the grey class, and the class is always one from the table |
| Reports.CellClassAttr | bioweb.py:419-420 | The cell's class attribute is the base class, with the highlight class appended when there is one |
| Reports.HighlightOfRegister | bioweb.py:408-417 | A species missing from the register is shown grey; every listed category except "Introduced and Naturalised" gets a class |
| Reports.FlagCell | bioweb.py:868-869 | 0 becomes "False", 1 becomes "True", and anything else a blank cell |
| Reports.ExportBatOccurrences | bioweb.py:851-884 | The bat export is a permutation of the in-radius records' lines, sorted by label order and then distance |
| Reports.BatExportContents | bioweb.py:855-884 | The export has one line per in-radius record, none from outside the radius, each from a real record; label ranks never decrease |
| Reports.HerpLineOrderIsTotalPreorder | bioweb.py:946 | Name-then-distance is a total preorder |
| Reports.ExportHerpOccurrences | bioweb.py:925-946 | The herp export is a permutation of the in-radius records' lines, sorted by scientific name and then distance, with `recordveri` spelled out |
| Reports.HerpExportGroupsSpecies | bioweb.py:946 | In the herp export the lines of one species are contiguous |
| Reports.HerpSummaryHeader | bioweb.py:1046-1058 | The herp summary CSV has ten columns, the seventh naming the radius |
| Reports.HerpSummaryCsv | bioweb.py:1021-1045 | The download fails with the 404 message exactly when there are no result rows; otherwise the ten-column header and one line per row, in the rows' order, each holding that row's taxa group, species, common name, threat status, CSV summary, total, most recent date and nearest records, with "Nearest Record 2013 to 2023" from the 2013-2023 window and "Nearest Record 2018 to 2023" from the 2018-2023 window |
| Reports.DownloadHerpSummary | bioweb.py:1009-1045 | The herp summary download fails exactly when no record lies within the radius; otherwise its lines are, in order, the summary lines of the summariser's sorted rows, each an `IsRowFor` row of its species |
| Reports.BatSummaryCsv | bioweb.py:988-993 | The bat summary download fails exactly when the table is empty; otherwise it carries the table under the seven-column header |
| Reports.DownloadBatSummary | bioweb.py:977-993 | The bat summary download never fails: it is the seven-column header over the table `process_bat_data` builds for the data set and radius, two or three lines, long-tailed first and short-tailed second |

## Left out

- Compass.NormalizeBearing: uses exact real arithmetic; the floating-point rounding of `(b + 360) % 360` is not modelled.
- Geodesic distance and the `atan2` bearing are not modelled. They are floating-point trigonometry, so each record carries them as inputs.
- The in-place assignment of `distance_km` into the caller's frame is not modelled. The distance is a field of each record.
- `load_and_preprocess_data` (`bioweb.py:23-106`) is not modelled. This covers reading the three CSV files, coordinate renaming, date parsing, dropping rows with missing values, coercing `roost` to an integer (with a blank or non-numeric value becoming 0), turning `sightingty` into text (with a cell left empty after stripping quotes and spaces becoming "Undefined"), stripping quotes and spaces from `scientific_name` and `common_name` (`bioweb.py:93-94`), on which the exact-name register join and the species list depend, and trimming register names. The model starts from the cleaned rows.
- Time of day is not modelled. Dates are whole days, so a record later than midnight on 2023-12-31 counts as inside the windows here, although the source's `<=` on the midnight timestamp excludes it.
- Text formatting is not modelled: `:.1f` distances, the `%d/%m/%Y` date, the combined "lat, lon" column and the CSV bytes. Cells are kept as values (distance plus direction, the date as a number).
- HTML page rendering, the Flask routes, form parsing, `send_file`, the 500 error paths, `open_browser` and the module-level data globals are not modelled. They are I/O.
- Ordering.SortBy: does not claim stability. The order pandas gives to rows with equal keys in `sort_values` and `value_counts` is not modelled; only sortedness and permutation are proved.
- Reports.ExportBatOccurrences: does not claim that records with equal sort keys (one label at one distance) keep their file order, as pandas' stable multi-key sort at `bioweb.py:884` does; the export is proved sorted and a permutation only.
- Reports.ExportHerpOccurrences: does not claim that records with equal sort keys (one name at one distance) keep their file order, as the stable sort at `bioweb.py:946` does; the export is proved sorted and a permutation only.
- Reports.HerpLineOf: assumes `recordveri` holds an integer. The loader leaves that column as `read_csv` parsed it, so a blank (NaN) or text value, which the source maps to a blank cell, cannot be represented here; any integer other than 0 or 1 gives a blank cell as in the source.
- Herps.TallySightingTypes: leaves the order among equally frequent sighting types unspecified, because the order pandas' `value_counts` gives to tied counts is not modelled.
- Missing register fields (NaN taxa, category or status) are not modelled; register values are strings.
- The `summary_df` column projections at `bioweb.py:600-613` and `bioweb.py:764-780` are not modelled. They only choose and order columns; the row datatypes hold the columns in export order.
