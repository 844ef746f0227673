# Yellow-taxi monthly cleaning, modelled in Dafny

This project models `scripts/preprocessing_yellow.py`, the routine that cleans one month of
yellow-taxi trip rows. It runs four stages in a fixed order:

1. Missing-value imputation fills five nullable columns with fixed defaults. It fails if any
   null is left anywhere.
2. Integrity filtering keeps a row only when a long conjunction of domain, range, sign,
   date-window and ordering conditions holds.
3. Feature derivation adds the trip time in minutes and the pickup and drop-off boroughs.
4. Inferred filtering drops outliers, using thresholds taken from exploratory analysis.

Two helpers feed the stages. `define_start_end_date` builds the "YYYY-MM" month window. The pure
part of `define_zone_mapping` builds the zone-to-borough map.

Every stage is a pure function over a sequence of records:

- `RawTrip` is a row as read, where every cell is an `Option`.
- `Trip` is a row with no null.
- `Enriched` is a `Trip` plus its derived columns. A borough the map lacks is `None`.

Timestamps are integer seconds since 1970-01-01T00:00. Money and distances are exact `real`s.
Failures are `Result` values: `NoWindowForMonth`, `NullsAfterImputation`, `UnparsableDate`.

Modules, one per component:

- `Results`, `Failures`: option and result types, and the failure kinds.
- `Decimal`: Python's `str(int)` and reading a numeral back.
- `Calendar`: first instant of a day or month.
- `DateWindow`: the window labels, and the instant a label denotes once `-01` is appended.
- `Trips`: the record types.
- `Filtering`: order-preserving selection.
- `Imputation`, `Integrity`, `Zones`, `Features`, `Inferred`: one module per stage or helper.
- `Pipeline`: the whole run.

The source compares timestamp columns with the strings `f'{start_date}-01'` and
`f'{end_date}-01'`. `DateWindow.BoundInstant` models this as reading the string
"Y-MM-DD" as a proleptic Gregorian date.

Two behaviours of the code are kept exactly as written:

- The upper date bound is inclusive. A row stamped exactly at the first instant of the next
  month is kept.
- The window helper is not total. A month above 12 matches no branch, and the source then
  fails on an unbound local; the model returns `NoWindowForMonth`.

## Model

| member | source | states |
|---|---|---|
| `Imputation.Fill` | scripts/preprocessing_yellow.py:9-12 | a filled cell is never null; a present cell keeps its value; a null cell becomes the default |
| `Imputation.FillRow` | scripts/preprocessing_yellow.py:13-24 | the five columns are non-null afterwards; each null becomes its default (RatecodeID 0, flag "Y", congestion 2.5, airport fee 0, passengers -1); every present cell and every other column is unchanged |
| `Imputation.FillRowIdempotent` | scripts/preprocessing_yellow.py:13-24 | filling a row twice equals filling it once |
| `Imputation.FilledRowNoNulls` | scripts/preprocessing_yellow.py:26-28 | after filling, a row has no null exactly when none of the other thirteen columns was null |
| `Imputation.Impute` | scripts/preprocessing_yellow.py:8-30 | fails (and only with the imputation failure) exactly when some row has a null outside the five filled columns; on success yields one null-free row per input row, in order, equal to the filled row |
| `Imputation.ImputeIdempotent` | scripts/preprocessing_yellow.py:8-30 | imputing the output of a successful imputation again returns the same output |
| `Filtering.Filter` | scripts/preprocessing_yellow.py:37-55 | the result is an order-preserving subsequence; every element passes; each passing row keeps its multiplicity and each failing row is gone |
| `Filtering.FilterMembership` | scripts/preprocessing_yellow.py:74-88 | a row is in the result exactly when it is in the input and passes |
| `Filtering.FilterIdempotent` | scripts/preprocessing_yellow.py:74-88 | selecting twice with the same condition equals selecting once |
| `Integrity.IntegrityFilter` | scripts/preprocessing_yellow.py:37-55 | output is an order-preserving subsequence of the input; a row is in it exactly when the whole conjunction holds; passing rows keep their multiplicity |
| `Integrity.IntegrityIdempotent` | scripts/preprocessing_yellow.py:37-55 | filtering the output again changes nothing |
| `Integrity.IntegrityBoundaries` | scripts/preprocessing_yellow.py:44-54 | passenger sentinel -1 is kept and 0 or 7 dropped; drop-off equal to pickup is dropped; drop-off exactly at the upper bound is kept |
| `Integrity.SurvivorDuration` | scripts/preprocessing_yellow.py:51-54 | a kept row lasts a positive time no longer than the window |
| `Zones.BuildMap` | scripts/preprocessing_yellow.py:107-109 | the keys are exactly the identifiers of the rows inserted |
| `Zones.BuildMapLastWins` | scripts/preprocessing_yellow.py:109 | an identifier maps to the borough of the last row carrying it (last write wins) |
| `Zones.ZoneMapping` | scripts/preprocessing_yellow.py:106-110 | a table of at most two rows gives the empty map; otherwise the keys are the identifiers of all rows but the last two, and duplicates take the later row's borough |
| `Zones.TrailerRowsIgnored` | scripts/preprocessing_yellow.py:106 | an identifier is a key exactly when it occurs among the first n-2 rows |
| `Features.Borough` | scripts/preprocessing_yellow.py:65-66 | the label is present exactly when the identifier is in the map, and is then the map's value (a member of its value set) |
| `Features.Enrich` | scripts/preprocessing_yellow.py:61-69 | the trip columns are untouched; sixty times the minutes equals drop-off minus pickup in seconds; both boroughs are the map lookups |
| `Features.Derive` | scripts/preprocessing_yellow.py:61-69 | same number of rows, same order, each row's trip unchanged and enriched |
| `Features.PositiveTripTime` | scripts/preprocessing_yellow.py:54-63 | every row that passed integrity filtering gets a strictly positive trip time, at most the window length |
| `Features.BoroughVocabulary` | scripts/preprocessing_yellow.py:65-67 | derived borough labels come from the map's value set; a pickup or drop-off borough is missing exactly when its zone is not in the map |
| `Inferred.OverlapIsHarmless` | scripts/preprocessing_yellow.py:81-84 | the overlapping disjuncts at 2 minutes and 0.5 miles equal the plain implications "under 2 minutes implies at most 3 miles" and "under 0.5 miles implies at most 30 minutes" |
| `Inferred.InferredFilter` | scripts/preprocessing_yellow.py:74-88 | output is an order-preserving subsequence; a row is in it exactly when the condition holds; survivors have distance at most 25, time at most 80, total below 125, and satisfy both joint bounds |
| `Inferred.InferredIdempotent` | scripts/preprocessing_yellow.py:74-88 | filtering the output again changes nothing |
| `Inferred.InferredBoundaries` | scripts/preprocessing_yellow.py:76-86 | distance 25 kept and 30 dropped; time 2 with distance 3 kept; distance 0.5 with time 30 kept; total 125 dropped |
| `DateWindow.StartEndDate` | scripts/preprocessing_yellow.py:91-101 | succeeds exactly when the month is at most 12, otherwise fails with the month |
| `DateWindow.StartEndDateLabels` | scripts/preprocessing_yellow.py:91-101 | for months 1 to 12 the window is the zero-padded label of the month and of the next month, rolling December over into January of the next year |
| `DateWindow.MarchWindow` | scripts/preprocessing_yellow.py:93-94 | (2023, 3) gives ("2023-03", "2023-04") |
| `DateWindow.SeptemberWindow` | scripts/preprocessing_yellow.py:95-96 | (2023, 9) gives ("2023-09", "2023-10") |
| `DateWindow.DecemberWindow` | scripts/preprocessing_yellow.py:99-101 | (2023, 12) gives ("2023-12", "2024-01"), and month 13 fails |
| `DateWindow.ParseDate` | scripts/preprocessing_yellow.py:51-52 | a readable string has the shape "Y-MM-DD": an all-digit year, two digits of month, two digits of day, separated by dashes; it reads as a midnight instant; any other string fails naming the string |
| `DateWindow.ParseDateRoundTrip` | scripts/preprocessing_yellow.py:51-52 | every calendar day of a non-negative year, written "Y-MM-DD", reads as the first instant of that day; written with a negative year it fails |
| `DateWindow.MonthLabelRoundTrip` | scripts/preprocessing_yellow.py:51-52 | a month label with "-01" appended reads back as that month's first instant for a non-negative year, and fails for a negative one |
| `DateWindow.BoundInstant` | scripts/preprocessing_yellow.py:51-52 | the bound a month label stands for in the timestamp comparison is the first instant of that month for a non-negative year, and a failure for a negative year |
| `DateWindow.NonPositiveMonthUnreadable` | scripts/preprocessing_yellow.py:93-94 | for a month of 0 or below the first branch still yields labels, but the start label with "-01" appended does not read as a date |
| `Decimal.IntToString` | scripts/preprocessing_yellow.py:94-100 | the text an f-string writes for an integer is non-empty and canonical: all digits with no leading zero (except for 0 itself) when the integer is non-negative, otherwise a minus sign followed by a numeral that does not start with 0 |
| `Decimal.IntToStringRoundTrip` | scripts/preprocessing_yellow.py:94-100 | the text of an integer reads back as that integer: its digits for a non-negative one, a minus sign before the magnitude's digits otherwise |
| `Decimal.NatToString` | scripts/preprocessing_yellow.py:94 | the numeral an f-string writes for a non-negative integer is non-empty, all digits, and starts with 0 only for zero |
| `Decimal.ParseNatToString` | scripts/preprocessing_yellow.py:94 | reading the numeral of n back gives n, so a year label is unambiguous |
| `Calendar.MonthStartStep` | scripts/preprocessing_yellow.py:51-52 | the window bounds of a month lie exactly that month's length apart |
| `Pipeline.Kept` | scripts/preprocessing_yellow.py:121-123 | reference selection: only rows of the input that pass both filters, enriched, and every such row is present |
| `Pipeline.StagesCompose` | scripts/preprocessing_yellow.py:121-123 | integrity filtering, then derivation, then inferred filtering equals the reference selection |
| `Pipeline.Clean` | scripts/preprocessing_yellow.py:113-125 | a month above 12 fails first, and a null left after imputation fails next; a month of 0 or below always fails; on success there are no more rows than went in, and each is plausible with a positive trip time |
| `Pipeline.CleanCharacterization` | scripts/preprocessing_yellow.py:113-125 | for months 1 to 12 of a non-negative year the run fails exactly when imputation fails; otherwise it returns the reference selection of the imputed rows, with bounds at the first instant of the month and of the next month |
| `Pipeline.NegativeYearFails` | scripts/preprocessing_yellow.py:115-121 | a negative year's window labels do not read as dates, so the run fails |
| `Pipeline.UpperBoundInclusive` | scripts/preprocessing_yellow.py:51-52 | a kept row moved to end exactly at the first instant of the next month is still kept; that instant is one month length after the lower bound |

## Left out

- File reads: `pd.read_parquet`, `pd.read_csv` and the path strings built for them. The zone
  table and the month's rows are parameters, so a missing file is not modelled.
- The diagnostic `print` of per-column null counts and the exception's message text. The
  failure is the bare `NullsAfterImputation`.
- Columns the code never names (for example `improvement_surcharge`). In the source a null in
  one of them also makes imputation fail.
- Pandas mechanics: the `category` dtype cast of the borough columns (only the missing/present
  distinction is kept), `.pipe`/`.assign` chaining, and float dtypes of integer-valued columns
  (passenger count and rate code are `int`).
- IEEE floating-point rounding of amounts, distances and the minute division. The model uses
  exact reals.
- Pandas timestamp range and resolution. Timestamps are whole seconds and every non-negative
  year is accepted. `DateWindow.ParseDate` only accepts "Y-MM-DD", with a decimal year and
  two-digit month and day.
- DateWindow.ParseDate: its own contract states only the shape of a readable string and that
  it reads as a midnight. The instant a date denotes is proved for canonically written dates
  (`DateWindow.ParseDateRoundTrip`). Texts with a zero-padded year, such as "02023-03-01", are
  not characterised. The run never builds them, because `Decimal.IntToString` writes a year
  without leading zeros.
- The in-place update of the caller's frame. `value_imputation` assigns the filled columns
  back into the frame it was given, even when the null check then raises. The model is pure
  and returns new rows. `clean_yellow_taxi_df` never looks at that frame again, so only a
  direct caller of the imputation step could observe the difference.
- Null cells in the zone table. Boroughs and identifiers are always present.
- The unused `geopandas` and `numpy` imports.
