# nuvem: hydro-meteorological series collection, modelled in Dafny

nuvem (and its earlier copies `chuvisco` and `src`) gathers rain, discharge
and stage series from the ANA web service, rain series from the INMET API
and daily MERGE precipitation grids from the CPTEC file server. Its core
logic, modelled here, is:

- **ANA series** (`AnaSeries`). Each `<SerieHistorica>` record describes
  one month. It is expanded into one row per calendar day (28 to 31 rows)
  from the fields `Chuva01`…, `Vazao01`… or `Cota01`…. The months are then
  concatenated, sorted by date and coerced to numbers. For rain, the nuvem
  copy also drops repeated dates. For discharge, the month's
  maximum/minimum/mean/consistency are attached to every day. For stage,
  centimetres become metres. The four copies of this code differ in small
  ways, which the `Copy` datatype selects.
- **ANA inventory** (`AnaInventory`). This covers:
  - the `telemetrica` argument computed from the two user flags;
  - the `HidroInventario` query;
  - the loop that turns each `<Table>` element into one row indexed by the
    station code;
  - the coercion of the coordinates to numbers.
- **ANA rain in a contour** (`AnaContour`). The inventory is either given
  or fetched, the stations are selected, then their series are fetched,
  deduplicated and joined column by column.
- **INMET** (`Inmet`). This covers:
  - the inventory and data URLs;
  - the rain column of one response;
  - the paging of a station's period into `ceil(days / 360)` windows of one
    calendar year each;
  - concatenation, first-wins deduplication and the column-wise join.
- **MERGE** (`Merge`). There is one queue entry per day of the period. Each
  file is named `MERGE_CPTEC_YYYYMMDD.grib2` and its URL is
  `{url_base}/DAILY/{year}/{month}/{file name}`. It is written only on a
  200 answer, and `task_done` is called once per day whatever happened.
- **Cleaning** (`Cleaning`). Outliers and negative values are masked in
  place, and the fraction of missing values is computed.
- **Longitude normalisation** (`Grade`). `((lon + 180) % 360) - 180`,
  followed by a sort of the longitude axis.
- **Unit-hydrograph convolution** (`Calculos`). The frame of partial
  products P_i·U_j, the row sums Q, and the effective rain column.

The supporting modules give the library behaviour the core relies on:

| module | library behaviour (all are Python standard library or pandas) |
|---|---|
| `Calendar` | proleptic Gregorian dates, `calendar.monthrange`, `date_range`, `timeless.period`, `add(years=1)`, `%d/%m/%Y`, `%Y-%m-%d` and `%Y%m%d` |
| `Text` | decimal rendering, `zfill`, split/join |
| `Query` | the `key=value&…` query strings the code builds with f-strings |
| `Numeric` | `pd.to_numeric` on sign/digits/fraction texts |
| `Series` | `sort_index`, `index.duplicated(keep="first")`, `concat(axis=1)` |
| `Sorting` | a sort by integer key |
| `Wrappers` | `Option`/`Result` and the first-error sequencing of a loop |

The web service is not executed. Its answers are parameters:
- ANA responses: the sequence of parsed records;
- INMET responses: a function from URL to the list of JSON objects;
- MERGE responses: a function from URL to an optional HTTP answer.

A Python exception becomes `Failure(e)`. The error names the exception's
cause: the missing element, the text that is not a number, nothing to
concatenate, or an undefined name.

The model follows the code where the prose description of the system
differs. A month record without its `ChuvaNN` or `VazaoNN` field raises (the
code calls `.text` on the `None` that `find` returns). Only the stage loop
catches that error and writes NaN. `AnaSeries.MonthRowsOutcome` states
both behaviours.

Three defects of the source are modelled as written:
- The chuvisco package's `obter_vazoes`/`obter_cotas` use `self.url_base`,
  which its class never defines (`AnaSeries.DischargeSeries` and
  `AnaSeries.StageSeries` fail with `UndefinedName("url_base")`).
- chuvisco's MERGE `obter_chuva_no_contorno` without `dir_dados` calls an
  `obter_dados_diarios` the class does not have (`Merge.GribFiles`).
- `src/calculos.py` does not load at all (see Findings).

## Model

| member | source | states |
|---|---|---|
| Calendar.DaysInMonth | nuvem/ANA/api.py:152-154 | `monthrange(y, m)[1]`: 28..31; 29 exactly for a leap February, 28 exactly for a common February, 30 exactly for April, June, September and November |
| Calendar.LeapYear2020 | nuvem/ANA/api.py:152-154 | 2020 is a leap year: January has 31 days and February 29 |
| Calendar.DateRangeFacts | nuvem/ANA/api.py:155-157 | `date_range(start, periods=n, freq="D")` steps one day at a time with strictly increasing dates; from the first of a month it lists days 1..n of that month |
| Calendar.PeriodDays | nuvem/MERGE/api.py:79 | `timeless.period(start, end, "days")`: the period has DaysBetween + 1 days when start <= end and none otherwise; it starts at start, ends at end and steps one day at a time |
| Calendar.AddYear | nuvem/INMET/api.py:254 | `add(years=1)` keeps the month and day, but 29 February becomes 28 February when the next year is not leap |
| Calendar.AddYearSpan | nuvem/INMET/api.py:254 | one added year spans 365 or 366 days |
| Calendar.OrdinalInjective | nuvem/INMET/api.py:246 | two dates a zero number of days apart are the same date |
| Calendar.MakeDate | nuvem/ANA/api.py:151 | a date is built exactly when year, month and day form a valid calendar date |
| Calendar.DayFirstRoundTrip | nuvem/ANA/api.py:134-135 | `%d/%m/%Y` reads back to the same date |
| Calendar.IsoExtendedRoundTrip | nuvem/INMET/api.py:109-110 | `%Y-%m-%d` reads back to the same date |
| Calendar.IsoBasicRoundTrip | nuvem/MERGE/api.py:58 | `%Y%m%d` is at least eight characters and reads back to the same date |
| Calendar.IsoBasicInjective | nuvem/MERGE/api.py:58 | distinct dates format to distinct `%Y%m%d` texts |
| Text.ValueOfDecimal | nuvem/MERGE/api.py:57 | `str(year)` reads back to the year |
| Text.ValueOfPadded | nuvem/MERGE/api.py:56 | a month padded with `zfill(2)` reads back to the month |
| Query.Lookup | nuvem/ANA/api.py:137-141 | the value of a key is found exactly when some parameter carries that key, and it is the value of the first such parameter |
| Query.ParseEncode | nuvem/ANA/api.py:137-141 | a query string joined from parameters without `&` or `=` splits back into the same parameters |
| Numeric.ToNumber | nuvem/ANA/api.py:174 | `pd.to_numeric` on one cell: NaN stays NaN; a text coerces exactly when it is an optionally signed run of digits with at most one point and at least one digit (`NumberText`), and otherwise raises with that text |
| Numeric.UnsignedDefined | nuvem/ANA/api.py:174 | the unsigned reading succeeds exactly on texts of digits and at most one point holding at least one digit |
| Numeric.ParseNumberDefined | nuvem/ANA/api.py:174 | a text is read exactly when it is such a text, optionally after one leading `-` or `+` |
| Numeric.ParseDigits | nuvem/ANA/api.py:174 | a run of digits, leading zeros allowed, is read as its decimal value |
| Numeric.ParseFraction | nuvem/ANA/api.py:174 | `p.q` is read as the value of p plus the value of q over 10^|q|, either side possibly empty but not both |
| Numeric.ParseSign | nuvem/ANA/api.py:174 | a leading `-` negates the reading and a leading `+` leaves it unchanged; a sign before a non-number is still rejected |
| Numeric.ParseDecimal | nuvem/ANA/api.py:174 | the decimal text of n is read as n |
| Numeric.ParseNegativeDecimal | nuvem/ANA/api.py:174 | `-n` is read as −n |
| Numeric.ParseDecimalFraction | nuvem/ANA/api.py:174 | `n.d` is read as n + value(d)/10^|d| |
| Numeric.ParseRejects | nuvem/ANA/api.py:174 | a text with any character other than digits and points (a sign only in front), with two points, or with no digit raises |
| Numeric.StageText350 | nuvem/ANA/api.py:305-306 | the text `350` is the number 350, which is 3.5 once divided by 100 |
| Series.SortByDateFacts | nuvem/ANA/api.py:173 | `sort_index` gives dates in ascending order and a permutation of the rows |
| Series.SortMapValues | nuvem/ANA/api.py:173-174 | sorting and then coercing the values is coercing and then sorting |
| Series.DropDuplicateDatesFacts | nuvem/ANA/api.py:176 | after `~index.duplicated(keep="first")` each date appears once; the same dates are kept, each with the row of its first occurrence, and no rows are added |
| Series.DropDuplicateDatesIncreasing | nuvem/ANA/api.py:173-176 | deduplicating rows with ascending dates leaves strictly increasing dates |
| Series.DropDuplicateDatesDistinct | nuvem/ANA/api.py:374 | rows whose dates are already distinct are left unchanged |
| Series.DropDuplicateDatesIdempotent | nuvem/ANA/api.py:374 | deduplicating twice is deduplicating once, so the second deduplication in the contour loop changes nothing |
| Series.UnionIndexDates | nuvem/ANA/api.py:377 | the index of `concat(axis=1)` holds a date exactly when some column has it |
| Series.UnionIndexIncreasing | nuvem/ANA/api.py:377 | that index is strictly increasing |
| Series.JoinColumnsFacts | nuvem/ANA/api.py:377 | `concat(axis=1)`: no frames raise; one column per station in order; the index is the increasing union of the dates; a cell is the station's (first) value on that date, or NaN when the station lacks the date |
| AnaSeries.DayTagInjective | nuvem/ANA/api.py:163 | `"{prefix}{:02}"` names distinct days distinctly |
| AnaSeries.DayTagExamples | nuvem/ANA/api.py:163 | day 7 is `Chuva07`, day 1 is `Cota01` and day 31 is `Vazao31` |
| AnaSeries.FirstAbsentDay | nuvem/ANA/api.py:159-165 | finds the first day whose field is absent, with every earlier day present, or reports that every day is present |
| AnaSeries.ExpandMonth | nuvem/ANA/api.py:155-166 | the day loop of one month returns what MonthRows specifies |
| AnaSeries.ExpandDays | nuvem/ANA/api.py:159-166 | the day loop over a list of dates returns what DayRows specifies |
| AnaSeries.MonthRowsOutcome | nuvem/ANA/api.py:159-166 | a month expands exactly when every day field is present, or always when absent fields become NaN (the stage loop); otherwise the error names the first absent day field |
| AnaSeries.MonthRowsDays | nuvem/ANA/api.py:152-166 | an expanded month has DaysInMonth rows (28..31); row i is day start+i with the text of field i+1 |
| AnaSeries.MonthRowsDated | nuvem/ANA/api.py:155-157 | consecutive rows are consecutive days with strictly increasing dates; a month starting on day 1 lists days 1..n of that month |
| AnaSeries.DayRowsFacts | nuvem/ANA/api.py:159-166 | one row per date, each with the date and the text of the field of its position |
| AnaSeries.FebruaryRows | nuvem/ANA/api.py:152-154 | a February record gives 29 rows in a leap year and 28 otherwise |
| AnaSeries.MonthRowsReadsOnlyItsDays | nuvem/ANA/api.py:159-166 | two records that agree on the fields of the month's days expand alike, so fields past the month's last day are never read |
| AnaSeries.ParseDataHoraRoundTrip | nuvem/ANA/api.py:151 | `to_datetime(DataHora, dayfirst=True)` reads back a `dd/mm/YYYY` date, and a `YYYY-mm-dd` date followed by a time |
| AnaSeries.StartOf | nuvem/ANA/api.py:151 | the first day of a month is read exactly when `DataHora` is present and parses, and it is the parsed date |
| AnaSeries.ReadTags | nuvem/ANA/api.py:213-216 | the header fields are read in order; it succeeds exactly when all are present, otherwise it raises on the first absent one |
| AnaSeries.CollectFacts | nuvem/ANA/api.py:147-168 | the month loop succeeds exactly when every record reads, giving one month per record in order; otherwise the error is that of the first record that fails |
| AnaSeries.ReadMonthRecord | nuvem/ANA/api.py:148-168 | one body of the month loop returns what ReadMonth specifies |
| AnaSeries.CollectMonths | nuvem/ANA/api.py:147-168 | the month loop returns what Collect specifies |
| AnaSeries.ToNumbers | nuvem/ANA/api.py:174 | `pd.to_numeric` on a column succeeds exactly when every cell is numeric or NaN, coercing each cell; otherwise it raises on a cell that is not numeric |
| AnaSeries.AllNumericPermutation | nuvem/ANA/api.py:173-174 | whether coercion succeeds does not depend on the row order |
| AnaSeries.CoerceSorted | nuvem/ANA/api.py:173-174 | coercing the sorted rows succeeds and equals sorting the coerced rows |
| AnaSeries.RainTableEmpty | nuvem/ANA/api.py:170-178 | no months, or a value that is not a number, gives the empty frame with only the station column |
| AnaSeries.RainTableRows | nuvem/ANA/api.py:170-176 | otherwise: without dedup, the rows are the coerced rows sorted, an ascending permutation; with dedup, the dates are strictly increasing, the same set of dates is kept, and each row is the first one for its date after sorting |
| AnaSeries.NuvemRainIncreasing | nuvem/ANA/api.py:173-176 | the nuvem rain frame is named after the station and has strictly increasing dates |
| AnaSeries.RainSeries | nuvem/ANA/api.py:147-180 | `obter_chuva` after the request fails exactly when some record fails to read; otherwise the frame is named after the station with ascending dates (strictly increasing in the nuvem copy); no records give the empty frame |
| AnaSeries.Assigned | nuvem/ANA/api.py:234-241 | one discharge table per month, in order |
| AnaSeries.AssignCarriesMonth | nuvem/ANA/api.py:234-240 | `assign` puts the month's maximum, minimum, mean and consistency next to every day's discharge text |
| AnaSeries.ReadMonthDays | nuvem/ANA/api.py:218-233 | a month that reads has a readable first day, and its rows are the expansion of that month |
| AnaSeries.ReadMonthHeader | nuvem/ANA/api.py:213-216 | a month that reads holds the texts of its header fields, in order |
| AnaSeries.DischargeRowsFacts | nuvem/ANA/api.py:245 | coercing `vazoes` succeeds exactly when every discharge text is numeric; it changes only the `vazoes` column |
| AnaSeries.DischargeTableFacts | nuvem/ANA/api.py:243-245 | no months raise; otherwise coercion succeeds exactly when every discharge text is numeric; the result is the date-sorted permutation of the months' rows with `vazoes` coerced and the other columns kept |
| AnaSeries.DischargeSeries | nuvem/ANA/api.py:211-247 | `obter_vazoes`/`obter_serie_vazoes`: the chuvisco package fails on `self.url_base`; otherwise, when every month record reads the result is the discharge table of those months, in ascending date order, and otherwise it is the first record's error; no months raise |
| AnaSeries.DischargeMonthLength | nuvem/ANA/api.py:218-233 | a discharge month of 2020 has 31 rows for January and 29 for February |
| AnaSeries.MonthRowsCount | nuvem/ANA/api.py:219-224 | an expanded month has as many rows as its month has days |
| AnaSeries.Centi | nuvem/ANA/api.py:306 | `cota / 100`: NaN stays NaN; otherwise the result times 100 is the original value |
| AnaSeries.StageTableFacts | nuvem/ANA/api.py:302-306 | no months raise; coercion succeeds exactly when every stage text is numeric; the result is the sorted permutation of the days, each value coerced and divided by 100 |
| AnaSeries.StageSeries | nuvem/ANA/api.py:278-308 | `obter_cotas`: the chuvisco package fails on `self.url_base`; src/ANA.py also reads `EstacaoCodigo`; otherwise, when every month record reads the result is the stage table of those months, in ascending date order, and otherwise it is the first record's error; no months raise |
| AnaSeries.StageExample | nuvem/ANA/api.py:305-306 | a raw stage of `350` becomes 3.5 metres |
| AnaSeries.SeriesQueryLookup | nuvem/ANA/api.py:137-141 | the series query carries the station code, both dates, the data kind and the consistency level under their keys |
| AnaSeries.RainQueryEncodes | nuvem/ANA/api.py:137-141 | the rain request string splits back into its parameters |
| AnaSeries.RainQueryReadsBack | nuvem/ANA/api.py:133-141 | the rain request asks for `tipoDados=2` and consistency 2 exactly when consistency was asked for (1 otherwise), and both dates read back from `dd/mm/YYYY` |
| AnaSeries.RainRequest | nuvem/ANA/api.py:103-141 | `obter_chuva` up to the request: it raises AttributeError on `None.format` exactly when a date is left at its default `None`; otherwise the request asks for `tipoDados=2` and both dates read back |
| AnaSeries.RainRequestDefaults | nuvem/ANA/api.py:103-135 | a call without dates, or with only one of them, raises before any request is sent |
| AnaSeries.ModuleRainDefault | chuvisco/ANA.py:97-119 | the chuvisco module's rain request asks for consistency 2 by default, and for `tipoDados=2` |
| AnaSeries.FlowAndStageQueries | nuvem/ANA/api.py:205 | the discharge request asks for `tipoDados=3` and the stage request for `tipoDados=1`, both with an empty consistency level |
| AnaInventory.MeasurementArg | nuvem/ANA/utils.py:40-48 | `obter_tipo_medicao` asks the service for exactly the kinds requested; asking for neither keeps the empty default, which asks for both |
| AnaInventory.InventoryQueryLookup | nuvem/ANA/utils.py:123-127 | the inventory query has 12 parameters: the code, the station type and the telemetry argument under their keys, and every other parameter empty |
| AnaInventory.InventoryQueryReadsBack | nuvem/ANA/utils.py:123-127 | the inventory request string splits back into its 12 parameters |
| AnaInventory.PluQuery | nuvem/ANA/api.py:54-59 | the rain-gauge inventory asks for `tpEst=2` and for `telemetrica` 1, 0 or empty according to the two flags |
| AnaInventory.ModuleInventoryDefaults | chuvisco/ANA.py:24-51 | `inventario()` with its defaults sends an empty code and station type and `telemetrica=1`, so the telemetry period columns are kept (13 columns) |
| AnaInventory.StationOf | nuvem/ANA/utils.py:69-87 | one `<Table>` becomes one row exactly when every field is present: its code is the index and the other cells are the fields' texts in order; otherwise the first absent field raises |
| AnaInventory.InventoryOf | nuvem/ANA/utils.py:67-90 | a processed inventory has one cell per column in every row |
| AnaInventory.ProcessInventory | nuvem/ANA/utils.py:67-90 | the `<Table>` loop returns what InventoryOf specifies |
| AnaInventory.InventoryOfFacts | nuvem/ANA/utils.py:67-90 | no tables raise; otherwise the inventory exists exactly when every table reads; then it has one row per table, in order, indexed by its code; the columns are the field names without `codigo`; a failure is that of some table |
| AnaInventory.InventoryColumns | nuvem/ANA/utils.py:69-87 | the 13 inventory columns after `set_index("codigo")` |
| AnaInventory.ModuleTelemetryColumns | chuvisco/ANA.py:60-85 | the telemetry period columns are present exactly when `telemetrica` is truthy (13 columns), otherwise 11 columns; their fields are then not read |
| AnaInventory.TelemetryColumnsKept | chuvisco/ANA.py:74-82 | a truthy `telemetrica` keeps both telemetry columns, 13 in all |
| AnaInventory.TelemetryColumnsDropped | chuvisco/ANA.py:74-82 | a falsy `telemetrica` has neither telemetry column and does not read their fields |
| AnaInventory.BaseFields | chuvisco/ANA.py:60-73 | the 11 columns and 12 fields read without telemetry |
| AnaInventory.ToCell | nuvem/ANA/api.py:62 | a number stays; a text coerces exactly when it is numeric, to its value |
| AnaInventory.CoerceColumnFacts | nuvem/ANA/api.py:61-62 | `inventario[c] = pd.to_numeric(inventario[c])`: a missing column raises; otherwise it succeeds exactly when every cell of the column coerces, replacing only that cell of each row |
| AnaInventory.LocatedFacts | nuvem/ANA/api.py:61-62 | both coordinate columns coerce exactly when every row's latitude and longitude do; then only those two cells change |
| AnaInventory.InventoryCells | nuvem/ANA/utils.py:69-87 | a processed inventory has 13 columns starting with latitude and longitude; each row carries its code and the texts of its coordinates |
| AnaInventory.PluInventorySucceeds | nuvem/ANA/api.py:54-63 | `inventario_plu` succeeds exactly when every station's latitude and longitude are numeric |
| AnaInventory.PluInventoryCells | nuvem/ANA/api.py:54-63 | its rows keep their codes and 13 cells, with the coordinates as numbers |
| AnaContour.Inside | nuvem/ANA/api.py:363-365 | a code is selected exactly when it belongs to a station whose coordinates lie in the contour, and every station is selected exactly when all of them lie in it |
| AnaContour.InsideConcat | nuvem/ANA/api.py:363-365 | the selection keeps inventory order: selecting from two consecutive parts gives the first part's codes followed by the second's |
| AnaContour.InsideOne | nuvem/ANA/api.py:363-365 | a single station is selected exactly when the contour test accepts its coordinates |
| AnaContour.ContourInventory | nuvem/ANA/api.py:356-361 | the inventory used, given or fetched, has one cell per column in every row |
| AnaContour.SuppliedInventoryWins | nuvem/ANA/api.py:356-357 | a given inventory is used as is, and the fetched one is ignored |
| AnaContour.StationSeries | nuvem/ANA/api.py:368-375 | one body of the station loop returns what StationColumn specifies |
| AnaContour.StationColumnFacts | nuvem/ANA/api.py:367-375 | a station's column is its `obter_chuva` frame, named after it, with strictly increasing dates |
| AnaContour.StationLoop | nuvem/ANA/api.py:366-376 | the station loop stops at the first station that fails, or returns every station's column |
| AnaContour.RainInContour | nuvem/ANA/api.py:356-377 | `obter_chuva_no_contorno` returns what ContourRain specifies |
| AnaContour.EmptySelectionRaises | nuvem/ANA/api.py:377 | an empty selection makes the final `concat` raise |
| AnaContour.ContourColumns | nuvem/ANA/api.py:366-377 | one column per selected station, in order, each that station's rain with strictly increasing dates |
| Inmet.InventoryUrl | nuvem/INMET/api.py:61-62 | the inventory URL ends in `T` exactly for telemetric stations and in `M` otherwise |
| Inmet.DataUrlRoundTrip | nuvem/INMET/api.py:109-113 | the data URL reads back to its frequency (hourly or daily), both dates and the station code |
| Inmet.DataUrlPieces | nuvem/INMET/api.py:109-113 | after the base, the path is `diaria` when the frequency is not `H`, then both dates as `%Y-%m-%d`, then the code |
| Inmet.ReadWindowFacts | nuvem/INMET/api.py:115-129 | a response reads exactly when it is readable; then there is one row per object, with its date and its `CHUVA` text; an empty response lacks the coordinate columns and raises |
| Inmet.ObterChuva | nuvem/INMET/api.py:162-170 | `obter_chuva` returns what WindowRead specifies for its URL |
| Inmet.ColumnNumeric | nuvem/INMET/api.py:125-126 | coercing a column succeeds exactly when every cell is numeric |
| Inmet.DatesRead | nuvem/INMET/api.py:128-129 | the date index is read exactly when every object's date reads, one date per object |
| Inmet.WindowCount | nuvem/INMET/api.py:246 | `ceil(days / 360)`: the window count n satisfies 360n − 360 < days <= 360n, and n <= 0 exactly when the period is empty or reversed |
| Inmet.WindowsContiguous | nuvem/INMET/api.py:250-263 | the first window starts at the start date, each ends one year after it starts, and each starts where the previous ended |
| Inmet.WindowsSpan | nuvem/INMET/api.py:253-263 | each window spans 365 or 366 days, and k windows span 365k to 366k days |
| Inmet.WindowsCover | nuvem/INMET/api.py:246-263 | the windows reach at least the final date |
| Inmet.WindowsOvershoot | nuvem/INMET/api.py:246-263 | one leap year from 1 January 2020 is counted as two windows, the second one past the final date |
| Inmet.StationRain | nuvem/INMET/api.py:249-268 | the window loop of one station returns what StationColumn specifies |
| Inmet.KeptRows | nuvem/INMET/api.py:265-267 | after concat and first-wins deduplication: each date once, exactly the dates of the windows, each kept row being its date's first row in the first window holding that date |
| Inmet.StationColumnFacts | nuvem/INMET/api.py:252-268 | a station's column exists only when every window reads; it is the deduplicated concatenation of those windows |
| Inmet.EmptyPeriodRaises | nuvem/INMET/api.py:246-265 | an empty or reversed period gives no windows, and `concat` raises |
| Inmet.InventoryOf | nuvem/INMET/api.py:64-76 | succeeds exactly when `CD_ESTACAO`, `VL_LATITUDE` and `VL_LONGITUDE` are columns and every coordinate is numeric; then one row per object, indexed by `CD_ESTACAO`, whose cells are its coerced latitude and longitude; the first missing column, in the code's order, is the one that raises |
| Inmet.ContourInventoryCases | nuvem/INMET/api.py:222-235 | a given inventory is used as is; with neither kind selected the inventory name is unbound; with both, the conventional stations are followed by the telemetric ones |
| Inmet.ContourInventory | nuvem/INMET/api.py:222-235 | the inventory used has one cell per column in every row |
| Inmet.StationLoop | nuvem/INMET/api.py:248-268 | the station loop stops at the first station that fails, or returns every station's column |
| Inmet.RainInContour | nuvem/INMET/api.py:222-270 | `obter_chuva_no_contorno` returns what ContourRain specifies |
| Inmet.EmptyPeriodContour | nuvem/INMET/api.py:246-270 | an empty or reversed period makes the contour query raise |
| Merge.FileNameRoundTrip | nuvem/MERGE/api.py:58-60 | the date reads back from `MERGE_CPTEC_YYYYMMDD.grib2` |
| Merge.FileNameInjective | nuvem/MERGE/api.py:60-61 | distinct days get distinct files |
| Merge.UrlSegments | nuvem/MERGE/api.py:56-63 | the URL is `{base}/DAILY/` followed by the year, the two-digit month and the file name, each reading back |
| Merge.Directory.constructor | nuvem/MERGE/api.py:78 | the directory starts with the files already in it |
| Merge.Directory.Write | nuvem/MERGE/api.py:66-68 | writing a file sets that name's contents and leaves the others |
| Merge.WorkQueue.constructor | nuvem/MERGE/api.py:81 | a new queue is empty with no unfinished tasks |
| Merge.WorkQueue.Put | nuvem/MERGE/api.py:83-84 | `put` appends the day and adds one unfinished task |
| Merge.WorkQueue.Get | nuvem/MERGE/api.py:54 | `get` takes the first day and leaves the unfinished count alone |
| Merge.WorkQueue.TaskDone | nuvem/MERGE/api.py:76 | `task_done` removes one unfinished task and leaves the items |
| Merge.Task | nuvem/MERGE/api.py:53-76 | one worker turn: it takes the first day, writes its file only on a 200 answer, and calls `task_done` whatever happened |
| Merge.Drain | nuvem/MERGE/api.py:53-76 | the workers empty the queue with every task done, leaving the directory as the downloads of the queued days, in order, leave it |
| Merge.WorkerCount | nuvem/MERGE/api.py:86 | `zip(range(threads), datas)` starts min(threads, days) workers, and none for a non-positive thread count |
| Merge.StartWorkers | nuvem/MERGE/api.py:86-92 | the start loop counts WorkerCount workers |
| Merge.BaixarDadosDiarios | nuvem/MERGE/api.py:78-94 | `join` returns exactly when there was nothing to do or some worker started; then the directory is that left by the downloads of every day of the period; otherwise it is untouched |
| Merge.PeriodDistinct | nuvem/MERGE/api.py:79 | the days of a period are distinct |
| Merge.AfterTasksAdds | nuvem/MERGE/api.py:78 | the run adds files to those already in the directory, overriding only the names it writes |
| Merge.WrittenNames | nuvem/MERGE/api.py:66-68 | every written file is the file of a day whose request answered 200 |
| Merge.WrittenContents | nuvem/MERGE/api.py:66-68 | for distinct days, every day answered with 200 has its file holding that answer's content |
| Merge.Written | nuvem/MERGE/api.py:64-68 | for distinct days, a day's file exists exactly when its request answered 200, and holds that answer's content |
| Merge.DownloadedPeriod | nuvem/MERGE/api.py:79-94 | after a run, every day of the period answered with 200 has its file with that content; files the run did not write are unchanged; every file written belongs to a day of the period answered with 200 |
| Merge.GribFiles | chuvisco/MERGE/api.py:128-134 | with `dir_dados`, the `*.grib2` files of that directory; without it, the undefined `obter_dados_diarios` raises |
| Cleaning.RemoverOutliers | nuvem/utils.py:46-49 | masks the outliers of the series itself and returns that same series |
| Cleaning.DroparNegativos | nuvem/utils.py:66-69 | masks the negative values of the series itself and returns that same series |
| Cleaning.MaskedFacts | nuvem/utils.py:47 | `serie.loc[labels] = nan` keeps the index and only turns values into NaN |
| Cleaning.OutliersRemoved | nuvem/utils.py:46-47 | no value remains above the limit; index and length stay; entries whose label no outlier carries are unchanged; every outlier is NaN |
| Cleaning.OutliersExactly | nuvem/utils.py:46-47 | with distinct labels, an entry changes exactly when its value exceeds the limit |
| Cleaning.SharedLabelMasked | nuvem/utils.py:46-47 | a label shared with an outlier masks its other entries too |
| Cleaning.OutliersIdempotent | nuvem/utils.py:46-49 | a second `remover_outliers` changes nothing |
| Cleaning.NegativesDropped | nuvem/utils.py:66-68 | no negative value remains; index stays; entries whose label no negative value carries are unchanged; every negative value is NaN |
| Cleaning.NegativesExactly | nuvem/utils.py:66-68 | with distinct labels, an entry changes exactly when its value is negative |
| Cleaning.NegativesIdempotent | nuvem/utils.py:66-69 | a second `dropar_negativos` changes nothing |
| Cleaning.Missing | nuvem/utils.py:87 | `isna().sum()` is at most the length; it is 0 exactly when no value is NaN, and the length exactly when every value is |
| Cleaning.FailureRate | nuvem/utils.py:86-89 | `contabilizar_falhas`: NaN for an empty series; otherwise a fraction in [0, 1] that times the length is the NaN count, 0 exactly when nothing is missing and 1 exactly when everything is |
| Cleaning.MaskingAddsMissing | nuvem/utils.py:87 | masking never lowers the NaN count |
| Cleaning.CleaningRaisesFailureRate | nuvem/utils.py:86-89 | removing outliers or negatives never lowers the failure rate |
| Grade.ToLimits180 | chuvisco/grade.py:39 | the converted longitude lies in [-180, 180) and differs from the original by a multiple of 360 |
| Grade.ToLimits180Unique | chuvisco/grade.py:39 | it is the only such longitude |
| Grade.ToLimits180Idempotent | chuvisco/grade.py:39 | a longitude already in [-180, 180) is unchanged, so converting twice is converting once |
| Grade.FromZeroTo360 | chuvisco/grade.py:39 | on [0, 360), longitudes below 180 stay and the others lose 360 |
| Grade.ConvertAxisFacts | chuvisco/grade.py:38-40 | the converted axis after `sortby` is ascending, a permutation of the converted coordinates, and within [-180, 180) |
| Grade.ConvertAxisKeepsNormalised | chuvisco/grade.py:38-40 | an axis already ascending within [-180, 180) is unchanged |
| Calculos.Effective | src/calculos.py:39-40 | the effective rain has one block per rain block, each of them times 10 giving the rain |
| Calculos.PartialStart | src/calculos.py:42-44 | the working frame starts as m rows of m NaN cells |
| Calculos.PartialStep | src/calculos.py:47-53 | one inner turn writes P_i·U_j at row j+i, column j, appending a row when the write falls one row past the end |
| Calculos.ColumnDone | src/calculos.py:46-54 | finishing column j's rain loop is starting column j+1 |
| Calculos.Convolucao | src/calculos.py:39-58 | the nested loops and the final frame give what Response specifies |
| Calculos.FinishedFrame | src/calculos.py:46-56 | after the loops the frame has m+n−1 rows (m without rain); every column is kept when there is rain, and none otherwise |
| Calculos.KeptAll | src/calculos.py:56 | `dropna(axis=1, how="all")` keeps every column that has a value |
| Calculos.KeptNone | src/calculos.py:56 | it drops every column without a value |
| Calculos.ResponseShape | src/calculos.py:39-58 | an empty hydrograph fails; otherwise m+n−1 rows (m without rain), one column per ordinate (none without rain), cell (k, c) is P_{k−c}·U_c when 0 <= k−c < n and NaN otherwise, and the rain column holds P_k for k < n |
| Calculos.ResponseCells | src/calculos.py:46-56 | each cell (k, c) of the section is P_{k−c}·U_c inside the rain's reach and NaN outside |
| Calculos.RowIsConvolution | src/calculos.py:57 | the NaN-skipping sum of row k is the discrete convolution sum of P_i·U_{k−i} |
| Calculos.ResponseIsConvolution | src/calculos.py:57 | Q has m+n−1 entries (m without rain), entry k being the convolution of the effective rain with the hydrograph |
| Calculos.ExampleConvolution | src/calculos.py:21-29 | the documented example's effective rain is 2, 2.5, 1, and its 11 convolution values |
| Calculos.ExampleResponse | src/calculos.py:21-29 | the documented example has 11 intervals and its maximum, 31.5, in the fifth |
| Calculos.ConvolucaoAsWritten | src/calculos.py:4 | the module as written fails with an undefined name |
| Calculos.ExampleAsWrittenFails | src/calculos.py:4-40 | on the documented example, the code as written does not give the documented response |

## Left out

- The network, XML parsing and JSON decoding: responses are parameters (parsed records, JSON objects, or a function from URL to answer). `requests` errors other than an exception in the MERGE worker are not modelled.
- Geometry and the spatial join (`geo.atribuir_geometrias`, `obter_pontos_no_contorno`): the contour test is the parameter `inside` over the two coordinate cells, and the selection (ANA and INMET alike) is an order-keeping filter of the inventory. The right join `sjoin(..., how="right")` is not captured: the model drops the NaN station row that a polygon without stations adds (the real loop then fetches a series for code NaN, so such a contour returns a frame instead of raising), the repetition of a station that several polygons contain, and the row order the join returns.
- The time of day in `DataHora`: only the date before the first space is read.
- `pd.to_numeric` spellings beyond an optional sign, digits and an optional fraction (exponents, surrounding spaces, `"nan"`, the empty text) count as not numeric.
- NaT: an unreadable date is an error (the `DataHora` of a record, the `data` of an INMET object) rather than a NaT index entry.
- Sort stability: `sort_index` is modelled as a stable sort by date; pandas' default quicksort is not stable, so the relative order of rows with equal dates can differ.
- AnaInventory.PluInventoryCells: states only the code and the two coordinate cells of each row; the other cells are stated by AnaInventory.LocatedFacts and AnaInventory.InventoryCells.
- chuvisco/ANA/utils.py and chuvisco/ANA/config.py are not part of this model; the chuvisco package's inventory is stated with the nuvem utilities, which it copies.
- nuvem/MERGE/config.py is not part of this model: the base URL and the thread count are parameters, with the chuvisco configuration's values (`Merge.UrlBase`, `Merge.Threads` = 20) as constants.
- The INMET inventory keeps only the coordinate columns and the code; its other fields are not modelled.
- `percentil` (a single `quantile` call) is not modelled.
- Threads and daemon workers: the MERGE workers are drained one after the other, so interleavings are not modelled; with no worker started, `join` would block forever, which `BaixarDadosDiarios` reports as `joined == false`.
- `print` logging.
- Disk-write and `mkdir` errors: writes to the download directory always succeed.
- In `convolucao`: the appended `pd.Series(np.nan)` adds a spurious all-NaN column, which `dropna` removes; and `insert(0, "chuva", ...)` is aligned by row label. The model places P_k in row k, which is that alignment for the default integer index. The float column labels are not kept.
- Floating point: the model computes on exact reals. Longitudes are integers in hundredths of a degree.
- rioxarray, xarray, `open_mfdataset`, the clip to a contour, the regional mean and the grid-cell stations.
- The `racional`, `solidos`, `mlt` and `curva_chave` computations of src/calculos.py; `obter_postos_artificiais`.

## Findings

| source | as written | input that shows it | evidently intended | confidence | as-written member | corrected member |
|---|---|---|---|---|---|---|
| src/calculos.py:4-40 | the signature uses `List` without importing it, so the module fails to load (NameError); inside, `chuvas` is never defined (NameError) | the documented example: rain [20, 25, 10] and the unit hydrograph of the docstring | the response by discrete convolution: 11 intervals, maximum 31.5 in the fifth | not executed | Calculos.ConvolucaoAsWritten, Calculos.ExampleAsWrittenFails | Calculos.Convolucao, Calculos.ResponseIsConvolution |
