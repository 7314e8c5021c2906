# geedar: the client-side logic of a data retrieval, in Dafny

geedar retrieves satellite-derived values (reflectances, estimated water
parameters) from Google Earth Engine for a table of sites and dates. Around the
remote requests sits sequential Python. That Python checks and expands the
demand table, groups it by site, plans batches of image dates, retries failed
reductions, writes the values it gets back into one table per processing code,
and consolidates those tables into the result. This project models that logic
and proves what it promises. Every remote answer is a parameter.

Modules, one per concern of `geedar_lib`:

- `Registry` (registry.dfy): the static registries (product, algorithm and
  reducer specifications) as plain values, and the plan a processing code
  stands for. They are passed in; their contents are not modelled.
- `Utils` (utils.dfy): the R-style `which`.
- `PyText` (text.dfy): the pieces of Python string semantics the core relies
  on: `int()`, `str()` of a natural number, `str.replace`, `lower` and
  `split(...)[0]`.
- `Cli` (cli.dfy): the decisions of `main` in cli.py. These are running-mode
  detection, the input directory, the output path and the option checks.
- `Products` (products.dfy): `getSpectralBands`, the QA bit-field masks, the
  `img_time` dispatch, and the product number inside a processing code.
- `Estimation` (estimation.dfy): the `export_bands` bookkeeping of
  `estimation`, as a class whose method extends the list.
- `Demand` (demand.dfy): column resolution, row validity, the time-window
  expansion loop, site keys, first-appearance site order, target rows and
  date lists.
- `DateRanges` (dateranges.dfy): `toSpecificDatesDF`, which turns date ranges
  into one row per day.
- `Batching` (batching.dfy): available dates, `group_len`, and the batches.
- `Reduction` (reduction.dfy): the three-round retry loop of `reduction`, its
  date-by-date fallback, and the suffix renaming of band keys.
- `Results` (writing.dfy): the per-code result table as a class with a cell
  map. It holds the writing loop and the column-name rules.
- `Consolidation` (consolidate.dfy): the final table, side by side or stacked
  in append mode, with the mode-2 removal of empty rows.
- `Retrieval` (pipeline.dfy): `specificDatesRetrieval` end to end. A
  specification function gives the requests the run plans, and methods run
  the same steps over the tables.

Dates are day numbers (`int`). Table cells are `Missing`, text, numbers as
their text, or dates. Remote calls are oracles kept in a `Remote` value:
- available dates;
- pixel counts;
- file existence;
- KML polygons;
- one reduction service per batch, and its per-date fallback.

A reduction service maps a round and a `tileScale` to a result or an error
message.

## Model

| member | source | states |
|---|---|---|
| `Utils.Which` | geedar_lib/utils.py:5-11 | a non-iterable argument raises, and only it; an iterable gives its truthy indices |
| `Utils.IndicesFrom` | geedar_lib/utils.py:10 | every listed index is in range, points at a truthy element, and the list is strictly ascending |
| `Utils.IndicesExact` | geedar_lib/utils.py:10 | `i` is listed exactly when `i < len(xs)` and `xs[i]` is truthy; the list is strictly ascending, hence duplicate-free |
| `Utils.IndicesFromComplete` | geedar_lib/utils.py:10 | no truthy index is missed |
| `Utils.IndicesNoneTruthy` | geedar_lib/utils.py:10 | an all-falsy or empty input gives `[]` |
| `PyText.ParseInt` | geedar_lib/cli.py:138-139 | `int(s)` succeeds exactly on an optional sign followed by digit groups joined by single underscores; a plain, grouped, `+`-signed or `-`-signed digit string gives the decimal value of its digits without the underscores, negated after `-` |
| `PyText.UngroupedExample` | geedar_lib/cli.py:138-139 | "0_1" is a well-placed grouping whose digits are "01" |
| `PyText.UnderscoreIgnored` | geedar_lib/cli.py:138-139 | `int("0_1")` is 1: the underscore between digits does not count |
| `PyText.MisplacedUnderscore` | geedar_lib/cli.py:138-139 | a doubled, leading or trailing underscore is refused |
| `PyText.DecimalString` | geedar_lib/geedar.py:2129 | `str(n)` of a natural number is all digits |
| `PyText.ParseIntRoundTrip` | geedar_lib/cli.py:138-139 | `int(str(n)) == n` and `int("-" + str(n)) == -n` |
| `PyText.ReplaceAllAbsent` | geedar_lib/geedar.py:2126-2127 | `replace` with a pattern that does not occur leaves the text unchanged |
| `PyText.ReplaceLeading` | geedar_lib/geedar.py:2126-2127 | replacing a leading pattern that does not recur swaps just that prefix |
| `PyText.Lower` | geedar_lib/geedar.py:1817 | ASCII lower-casing: the length is kept, each A-Z letter becomes its lower-case letter (code point + 32), no A-Z letter remains, and every other character is kept |
| `PyText.FirstSegment` | geedar_lib/geedar.py:2155 | `col.split("_")[0]` is the longest `_`-free prefix, followed by `_` or the end |
| `Cli.ModeFromExtension` | geedar_lib/cli.py:36-45 | ".db" gives 3; ".csv" or ".kml" gives 0; any other extension raises; each case in both directions |
| `Cli.DetectRunningMode` | geedar_lib/cli.py:36-56 | with no explicit mode the extension decides; an explicit mode is accepted exactly when it is an integer in 1..5 |
| `Cli.DetectRunningModeAsWritten` | geedar_lib/cli.py:36-56 | as written, every explicit mode raises |
| `Cli.ExplicitModeRejectedAsWritten` | geedar_lib/cli.py:55 | mode "1" is rejected as written and accepted once corrected |
| `Cli.SplitPath` | geedar_lib/cli.py:59-63 | `os.path.split`: the tail is what follows the last "/", and the head is empty exactly when there is no "/" |
| `Cli.JoinPath` | geedar_lib/cli.py:104 | `os.path.join`: an absolute second part replaces the first; otherwise the result ends with the second part |
| `Cli.InputDirectory` | geedar_lib/cli.py:58-63 | the input directory is "./" exactly when the path has no "/" |
| `Cli.SplitHeadNotDotSlash` | geedar_lib/cli.py:59-62 | a split never yields "./" as head, so that directory only comes from the default |
| `Cli.DropLast4` | geedar_lib/cli.py:103 | `input_file[:-4]` followed by the last four characters gives the name back; a shorter name gives "" |
| `Cli.DefaultOutputFile` | geedar_lib/cli.py:98-103 | "kml_result.csv" for "*.kml"; otherwise the name without its last four characters plus "_result.csv" |
| `Cli.OutputPath` | geedar_lib/cli.py:96-118 | no option gives the default in the input directory; a bare file name is re-joined under the input directory; a path is kept; an error is raised exactly when its directory is missing |
| `Cli.DefaultOutputInWorkingDir` | geedar_lib/cli.py:96-104 | without an output option, a ".csv" input in "./" writes "<name>_result.csv" there |
| `Cli.CsvInWorkingDir` | geedar_lib/cli.py:36-63 | a ".csv" file name without a directory runs mode 0 from "./" |
| `Cli.DefaultsConfigured` | geedar_lib/cli.py:25-31 | with the default options, an existing ".csv" input runs mode 0 with a 1000 m radius, a 2-day window, append mode off and the default output beside it |
| `Cli.SplitOfJoin` | geedar_lib/cli.py:104-115 | splitting a joined path gives back the file name; the head is empty exactly when the directory is |
| `Cli.AoiRadius` | geedar_lib/cli.py:125-133 | the radius, an integer already, is accepted exactly when it is above 0, and then it is kept |
| `Cli.TimeWindow` | geedar_lib/cli.py:138-145 | the time window, an integer already, is accepted exactly when it is at least 0, and then it is kept |
| `Cli.AppendMode` | geedar_lib/cli.py:148-149 | True exactly when the text is not "", "False" or "0"; otherwise the text is kept |
| `Cli.Configure` | geedar_lib/cli.py:36-149 | a mode error is passed on; the mode is the detected one; the options are checked exactly when the mode is below 3, and then output path, radius and time window are the validated ones and the input file exists or is "*.kml"; conversely a detected mode succeeds exactly when it is a database mode or every check passes |
| `Products.GetSpectralBands` | geedar_lib/geedar.py:111-114 | the keys are the common bands with a non-negative index plus the spectral bands; spectral bands map to themselves and override; common bands map to their band |
| `Products.SpectralBandValues` | geedar_lib/geedar.py:111-114 | every value is a band of the product's band list |
| `Products.QaFields` | geedar_lib/geedar.py:123-192 | no QA layer gives no mask; every field lies within 16 bits and reads one of the product's QA layers |
| `Products.MaskValues` | geedar_lib/geedar.py:203-208 | the `bitToInt` loop gives 2^(end+1) - 2^start for each field |
| `Products.ModisMasks` | geedar_lib/geedar.py:137-141 | the MODIS masks are 7, 192 and 768 |
| `Products.MaskExtractsBits` | geedar_lib/geedar.py:213-215 | `(x & mask) >> start` is exactly bits start..end of x |
| `Products.ImgTimeOf` | geedar_lib/geedar.py:283-306 | a fixed time exactly for the fourteen MODIS products listed, and it is one of 10:30, 13:30, 12:00 |
| `Products.ProductOfLaidOutCode` | geedar_lib/geedar.py:2172 | `int(str(code)[0:3])` of a product number followed by more digits is that product |
| `Estimation.AddedParamsExact` | geedar_lib/geedar.py:1335-1365 | a name is added exactly when some applicable algorithm has it as a parameter name other than [""] |
| `Estimation.EstimationAsWritten` | geedar_lib/geedar.py:1335-1365 | as written, the run raises exactly when some algorithm lacks a required band |
| `Estimation.InapplicableAlgorithmRaisesAsWritten` | geedar_lib/geedar.py:1341-1346 | an algorithm needing "red" on a product with only "NIR" raises as written; corrected, it adds nothing |
| `Estimation.Session.constructor` | geedar_lib/geedar.py:273 | a new session starts with an empty `export_bands` |
| `Estimation.Session.Estimation` | geedar_lib/geedar.py:1327-1365 | `export_bands` is extended by exactly the added parameter names, and nothing else changes |
| `Demand.IndexOf` | geedar_lib/geedar.py:1846 | `list.index`: the first occurrence, and None exactly when absent |
| `Demand.ResolveColumns` | geedar_lib/geedar.py:1817-1907 | no data row is an error; an accepted layout fits the header, its date column parses, point sites have numeric lat/long, and "date", "id", "lat" and "long" are found by name when present |
| `Demand.ColumnIndex` | geedar_lib/geedar.py:1845-1848 | `colnames.index(x)` with the ValueError caught: the first column named `x`, and the fallback exactly when there is none |
| `Demand.ResolveColumnsOutcome` | geedar_lib/geedar.py:1822-1907 | each failing check, in source order, gives its error (too few columns, KML too few columns, bad dates, no room for lat/long, unknown KML id column, non-numeric lat/long); the table is accepted exactly when every check passes, and the layout is the named columns, otherwise the defaults (shifted left in a three-column table without id, none for KML lat/long), with a clashing point-site id dropped |
| `Demand.PointTableAccepted` | geedar_lib/geedar.py:1844-1907 | a `date,id,lat,long` table with dates and numeric coordinates resolves to columns 0, 1, 2, 3 |
| `Demand.ShortTableAccepted` | geedar_lib/geedar.py:1860-1889 | a `lat,long,date` table resolves by name, with no id column |
| `Demand.KmlTableAccepted` | geedar_lib/geedar.py:1835-1889 | a KML `date,id` table resolves with no lat/long columns |
| `Demand.UnparsedDateRefused` | geedar_lib/geedar.py:1850-1858 | a date cell holding non-date text gives the bad-date error |
| `Demand.InsertAt` | geedar_lib/geedar.py:1960 | `insert`: the new column at k, earlier ones kept, later ones shifted by one |
| `Demand.ShiftKeepsColumns` | geedar_lib/geedar.py:1960-1971 | after the insertion the shifted indices still name the same id/lat/long columns, and `img_date` sits at the new date index |
| `Demand.Block` | geedar_lib/geedar.py:1943-1958 | a valid row becomes `2*tw+1` rows, an invalid one a single row |
| `Demand.BlockDates` | geedar_lib/geedar.py:1945-1953 | row w of a valid row's block has `img_date` = date - tw + w, and otherwise equals the row |
| `Demand.ExpandTimeWindow` | geedar_lib/geedar.py:1936-1975 | the `row_j` loop builds exactly the expanded table and `validRows_new` |
| `Demand.ExpandedSize` | geedar_lib/geedar.py:1937 | the expanded table has `len(validRows)*(2*tw+1) + (nrows - len(validRows))` rows |
| `Demand.ExpandedRectangular` | geedar_lib/geedar.py:1938-1960 | every expanded row is one column wider than the input |
| `Demand.ExpandedValidBounded` | geedar_lib/geedar.py:1949-1954 | `validRows_new` is strictly ascending and within the expanded table |
| `Demand.ExpandedValidExact` | geedar_lib/geedar.py:1943-1958 | every expanded row has an `img_date` column, and a row is in `validRows_new` exactly when its `img_date` is set |
| `Demand.Unique` | geedar_lib/geedar.py:1988 | `unique()`: the same members, no duplicates |
| `Demand.UniqueFirstAppearance` | geedar_lib/geedar.py:1988 | `unique()` keeps the order of first appearance |
| `Demand.SiteList` | geedar_lib/geedar.py:1977-1988 | the sites are exactly the keys of the valid rows |
| `Demand.TargetRows` | geedar_lib/geedar.py:2005 | a row is a target of the site exactly when it is valid and has the site's key; ascending |
| `Demand.SortedUnique` | geedar_lib/geedar.py:2006-2008 | `sort_values().unique()`: strictly ascending, the same members |
| `Demand.DateList` | geedar_lib/geedar.py:2006-2008 | a site's dates are strictly ascending and exactly the dates of its target rows |
| `DateRanges.RangeGuardAsWritten` | geedar_lib/geedar.py:1698-1706 | as written, the guard raises exactly when the range columns are present |
| `DateRanges.WellFormedHeaderRejectedAsWritten` | geedar_lib/geedar.py:1698-1706 | as written, "id, start_date, end_date" and "lat, long, start_date, end_date" are rejected, and a header with neither id nor coordinates passes |
| `DateRanges.ExportColumns` | geedar_lib/geedar.py:1711-1728 | the exported columns are id/lat/long columns; id is exported exactly when present, and lat/long exactly when both are present |
| `DateRanges.EarliestSensorDate` | geedar_lib/geedar.py:1746-1751 | the minimum of today and the products' start dates; None exactly when a product is unregistered |
| `DateRanges.UserStartDate` | geedar_lib/geedar.py:1738-1745 | a non-text, "auto" (any case) or blank start means 1960-01-01; any other text is parsed as a date |
| `DateRanges.DailyRange` | geedar_lib/geedar.py:1753-1755 | `date_range(lo, hi)`: exactly the days lo..hi, consecutive, `hi-lo+1` of them |
| `DateRanges.RowDates` | geedar_lib/geedar.py:1733-1758 | a row's dates are exactly the days from `max(user start, earliest sensor date)` to the end date; empty when any part fails |
| `DateRanges.DatesTableFromRow` | geedar_lib/geedar.py:1765-1768 | every row made from an input row is one of its dates beside its exported values |
| `DateRanges.ToSpecificDatesDF` | geedar_lib/geedar.py:1687-1770 | the row loop, with the guard corrected, computes the conversion |
| `DateRanges.ConvertedCount` | geedar_lib/geedar.py:1733-1770 | one output row per day of each input range; rows with an empty range add none |
| `DateRanges.ConvertedRowsFromRanges` | geedar_lib/geedar.py:1733-1770 | every output row comes from some input row's range |
| `Batching.AvailableDates` | geedar_lib/geedar.py:2067-2068 | the available dates are the site's dates the service returned, order kept: ascending, and none before the first |
| `Batching.Ceil` | geedar_lib/geedar.py:2089 | `math.ceil`: the least integer not below x |
| `Batching.GroupLen` | geedar_lib/geedar.py:2087-2090 | zero pixels divide by zero; a result is never 0 and at most `nSimImgs`; one less than it is below the pixel budget `max/pixels`, and it reaches the budget unless it is `nSimImgs`; it fails exactly when `ceil(max/pixels)` or `nSimImgs` makes the minimum 0 |
| `Batching.GroupCount` | geedar_lib/geedar.py:2091 | `ceil(n/group_len)`; a negative length gives no group |
| `Batching.Batches` | geedar_lib/geedar.py:2093-2096 | there are `ceil(n/group_len)` batches |
| `Batching.BatchSizes` | geedar_lib/geedar.py:2094-2096 | each batch holds 1..group_len dates; all but the last hold exactly group_len |
| `Batching.BatchesCover` | geedar_lib/geedar.py:2093-2096 | the batches concatenated in order give back the available dates |
| `Batching.BatchesPrefix` | geedar_lib/geedar.py:2094-2096 | the first k batches are exactly the first `min(k*group_len, n)` dates |
| `Reduction.Prefix40` | geedar_lib/geedar.py:1621 | `str(e)[:40]`: a prefix of at most 40 characters, exactly 40 when available |
| `Reduction.Classify` | geedar_lib/geedar.py:1589-1628 | a time-out exactly for the time-out message; "too large" exactly when the first 40 characters match |
| `Reduction.FallbackLog` | geedar_lib/geedar.py:1599-1613 | the fallback sends one request per local date, in order |
| `Reduction.OneByOne` | geedar_lib/geedar.py:1598-1620 | the per-date loop computes the fold of successful date results |
| `Reduction.FallbackExact` | geedar_lib/geedar.py:1598-1619 | the fallback succeeds exactly when one date request does, and then holds exactly the dates of the successful requests |
| `Reduction.Round` | geedar_lib/geedar.py:1563-1633 | one round of the loop computes one step of the retry state machine |
| `Reduction.RetrieveWithRetries` | geedar_lib/geedar.py:1559-1636 | the loop computes the retry specification from round 0, no time-outs, `tileScale` 1 |
| `Reduction.AtMostThreeAttempts` | geedar_lib/geedar.py:1563 | at most three whole-batch attempts |
| `Reduction.OneAttemptPerRound` | geedar_lib/geedar.py:1563-1633 | every round requests the whole batch exactly once |
| `Reduction.TimeoutStep` | geedar_lib/geedar.py:1589-1620 | a time-out switches to the fallback when it is the second and there are several local dates; otherwise the next round follows with one more time-out counted |
| `Reduction.OtherErrorStep` | geedar_lib/geedar.py:1628-1633 | any other error: a 30 s pause unless it was the last round, and the next round follows with the same time-out count and `tileScale` |
| `Reduction.FirstSuccessReturned` | geedar_lib/geedar.py:1579-1584 | a success ends the loop with that result after one attempt |
| `Reduction.TooLargeEveryRound` | geedar_lib/geedar.py:1621-1627 | "too large" every time: three attempts at tileScale 1, 2, 4, no result |
| `Reduction.OtherErrorsWait` | geedar_lib/geedar.py:1628-1633 | other errors: a 30 s sleep after rounds 0 and 1 only, no result |
| `Reduction.SecondTimeoutFallsBack` | geedar_lib/geedar.py:1589-1620 | two time-outs with several dates switch to the fallback; no third attempt follows |
| `Reduction.SeparatedTimeoutsFallBack` | geedar_lib/geedar.py:1589-1633 | time-outs count in total: time-out, another error, time-out still falls back |
| `Reduction.TimeoutsWithoutFallback` | geedar_lib/geedar.py:1589-1596 | with at most one date, time-outs only use up the three rounds |
| `Reduction.ResultComesFromService` | geedar_lib/geedar.py:1579-1636 | a result is a whole-batch answer or a fallback answer of some later round; none otherwise |
| `Reduction.TaggedInjective` | geedar_lib/geedar.py:1645 | distinct keys get distinct `key_suffix` names |
| `Reduction.SuffixBands` | geedar_lib/geedar.py:1643-1645 | without name clashes, each reduced key becomes `key_suffix` with its value, and other keys are unchanged |
| `Reduction.SuffixFragment` | geedar_lib/geedar.py:1641-1645 | every date keeps its place and gets its bands renamed |
| `Reduction.Reduce` | geedar_lib/geedar.py:1498-1647 | reducer 0 returns the unevaluated dictionary; otherwise the retry log; None without a success; an unknown reducer or empty suffix list raises; a single suffix renames, several leave the result unchanged |
| `Results.CommonPairs` | geedar_lib/geedar.py:2076-2081 | exactly the (common, real) name pairs with a non-negative index |
| `Results.ColumnNames` | geedar_lib/geedar.py:2121-2131 | never empty; append mode gives the replaced names, or the key when none applies; several codes give `code_key`; otherwise the key |
| `Results.RenamedCommonBand` | geedar_lib/geedar.py:2124-2127 | in append mode `real_suffix` is written under `common_suffix` |
| `Results.SameDateRows` | geedar_lib/geedar.py:2117-2119 | exactly the site's target rows whose date cell is the result's date, ascending |
| `Results.CodeTable.constructor` | geedar_lib/geedar.py:1995-1996 | a new table has its row count, no columns and no cells |
| `Results.CodeTable.Assign` | geedar_lib/geedar.py:2134 | `.loc[row, col] = v` sets that cell only and adds the column when new |
| `Results.Listing` | geedar_lib/geedar.py:2116 | `[*result]`: every key once |
| `Results.WriteRow` | geedar_lib/geedar.py:2133-2134 | one value into each name of one row; nothing else changes |
| `Results.WriteBand` | geedar_lib/geedar.py:2132-2134 | one value into every (row, name) pair; nothing else changes |
| `Results.WriteDate` | geedar_lib/geedar.py:2121-2134 | every band key of one date written at its rows and names |
| `Results.WriteKey` | geedar_lib/geedar.py:2121-2134 | one band key of a date written; what earlier keys wrote is kept |
| `Results.WriteResult` | geedar_lib/geedar.py:2116-2134 | the table afterwards is exactly the old one with every (date, band) value written at the same-date target rows and their column names |
| `Results.WrittenValue` | geedar_lib/geedar.py:2116-2134 | without name clashes, each hit cell holds its band's value |
| `Results.UnwrittenUnchanged` | geedar_lib/geedar.py:2116-2134 | a cell no (date, band) hits is unchanged |
| `Results.CodePrefixNoClash` | geedar_lib/geedar.py:2128-2129 | `code_band` names never clash |
| `Consolidation.SideBySideShape` | geedar_lib/geedar.py:2187-2188 | each row is the template row followed by every code's columns in order |
| `Consolidation.DropEmptyExact` | geedar_lib/geedar.py:2189-2191 | `dropna(how="all")` keeps exactly the rows with some data, in order |
| `Consolidation.DropEmptyStackedExact` | geedar_lib/geedar.py:2182-2184 | the same for one stacked block |
| `Consolidation.StackIndex` | geedar_lib/geedar.py:2185 | row r of block j is at `j*n + r` of the concatenation |
| `Consolidation.StackMembers` | geedar_lib/geedar.py:2185 | a row is in the concatenation exactly when it is in some block |
| `Consolidation.Sensors` | geedar_lib/geedar.py:2172-2173 | the sensor of each code's product, or the first product missing from the registry |
| `Consolidation.Consolidate` | geedar_lib/geedar.py:2139-2193 | no data gives None; without append mode, the template's columns first; in append mode success exactly when product 101 and every code's product are registered, then stacked with the kept data columns |
| `Consolidation.SideBySideLayout` | geedar_lib/geedar.py:2187-2188 | without append mode: one row per template row, each code's values where its columns are |
| `Consolidation.SideBySideMode2` | geedar_lib/geedar.py:2187-2191 | mode 2 keeps exactly the rows with some data |
| `Consolidation.StackedLayout` | geedar_lib/geedar.py:2152-2185 | append mode: row `j*n + r` is template row r with code j, its sensor and its values |
| `Consolidation.StackedMode2Kept` | geedar_lib/geedar.py:2182-2185 | mode 2 keeps only rows with data, each from one of the codes |
| `Consolidation.StackedMode2Complete` | geedar_lib/geedar.py:2182-2185 | mode 2 drops no row with data |
| `Consolidation.SuffixedCommonColumnKept` | geedar_lib/geedar.py:2163-2169 | a `common_suffix` column is carried |
| `Consolidation.BareCommonColumnDropped` | geedar_lib/geedar.py:2154-2160 | a bare common band name is never a data column |
| `Retrieval.StartAsWritten` | geedar_lib/geedar.py:1803-1812 | as written, mode 2 fails on the missing argument, and other modes run exactly when a global `time_window` exists |
| `Retrieval.NoFreshRunStartsAsWritten` | geedar_lib/geedar.py:1803-1812 | as written, a run in a fresh process always fails |
| `Retrieval.Start` | geedar_lib/geedar.py:1809-1812 | outside mode 2 the input is used as given; mode 2 succeeds exactly when the conversion does; the table stays rectangular |
| `Retrieval.ConvertedFrame` | geedar_lib/geedar.py:1765-1770 | the converted table leads with "date", has rows, and is rectangular |
| `Retrieval.Mode2Shape` | geedar_lib/geedar.py:1809-1812 | mode 2 works on dates as they are (time window 0), with "date" first and at least one row |
| `Retrieval.Mode2RowsFromRanges` | geedar_lib/geedar.py:1733-1770 | every row of a mode-2 run is a date of some input range beside that row's values |
| `Retrieval.ValidRowsDated` | geedar_lib/geedar.py:1910-1926 | `which` of the mask lists exactly the valid rows, ascending and dated; it is empty exactly when no row is valid |
| `Retrieval.Expand` | geedar_lib/geedar.py:1933-1975 | the header gains `img_date` after the date, the layout shifts, and the valid rows are exactly those with an `img_date` |
| `Retrieval.Prepare` | geedar_lib/geedar.py:1817-1975 | column errors pass through; no valid row is an error exactly when the mask is all false; without a time window the table is unchanged; with one it is expanded |
| `Retrieval.PrepareResolved` | geedar_lib/geedar.py:1910-1975 | once the columns are resolved, no valid row is the only error, exactly when the mask is all false; without a time window the table is kept with exactly the valid rows; with one it is expanded |
| `Retrieval.ExpandedPrepared` | geedar_lib/geedar.py:1933-1975 | with a time window and some valid row, the prepared table is the expanded table with the inserted `img_date` column |
| `Retrieval.PrepareDemand` | geedar_lib/geedar.py:1817-1975 | the preparation, with the expansion loop, computes `Prepare` |
| `Retrieval.SiteRows` | geedar_lib/geedar.py:2005 | a site's target rows are valid rows of the template |
| `Retrieval.KmlFile` | geedar_lib/geedar.py:2011-2024 | the KML file found exists; none is found exactly when neither search path exists |
| `Retrieval.CodeBatches` | geedar_lib/geedar.py:2091-2096 | a negative group length gives no batch; a positive one gives the batches |
| `Retrieval.CodeStepServed` | geedar_lib/geedar.py:2057-2104 | each request of a code is one of its batches, of 1..nSimImgs available dates |
| `Retrieval.SiteRequestsServed` | geedar_lib/geedar.py:2049-2104 | the same for every request of a site |
| `Retrieval.CodeStepCovers` | geedar_lib/geedar.py:2066-2096 | a code's requests cover its available dates in order |
| `Retrieval.NewTables` | geedar_lib/geedar.py:1993-1996 | one fresh, empty table per distinct code, distinct objects |
| `Retrieval.BlankTables` | geedar_lib/geedar.py:1993-1996 | the tables are keyed by exactly the plans' codes, valid, separate and empty |
| `Retrieval.WrittenOnlyRows` | geedar_lib/geedar.py:2116-2134 | writing a result touches only the site's target rows |
| `Retrieval.OutcomeError` | geedar_lib/geedar.py:2104-2113 | no result and a retrieved result continue the run; the other outcomes raise |
| `Retrieval.ReplaySnoc` | geedar_lib/geedar.py:2093-2135 | one more batch extends the record of the run; data was brought back, or nothing raised, exactly as before and for the new batch |
| `Retrieval.ReplayConcat` | geedar_lib/geedar.py:2002-2135 | two runs one after the other make one run, with the same start, end, data flag and quietness |
| `Retrieval.EffectOf` | geedar_lib/geedar.py:2114-2134 | the rows a request writes at are valid rows of the demand |
| `Retrieval.WrittenSets` | geedar_lib/geedar.py:2114-2134 | the cells each request of a run wrote into a code's table, request by request |
| `Retrieval.ValueSets` | geedar_lib/geedar.py:2114-2134 | the values each request of a run may leave at each cell, request by request |
| `Retrieval.WrittenRow` | geedar_lib/geedar.py:2117-2119 | a written cell lies in one of the request's target rows |
| `Retrieval.SetRow` | geedar_lib/geedar.py:2117-2119 | the same for a cell of a run's written sets |
| `Retrieval.BatchCells` | geedar_lib/geedar.py:2114-2134 | after a batch a cell of the code's table is present exactly when it was or the batch wrote it; unwritten cells keep their value; written ones hold a value of the result |
| `Retrieval.ReplayStep` | geedar_lib/geedar.py:2093-2134 | the same for request `n - 1` of a run, stated with the run's written sets |
| `Retrieval.ReplayKeys` | geedar_lib/geedar.py:2093-2135 | the requests of a run keep the set of codes of the tables |
| `Retrieval.StepCells` | geedar_lib/geedar.py:2114-2134 | one more write keeps "present exactly when written, holding a value the last writer allowed" |
| `Retrieval.TrackWrites` | geedar_lib/geedar.py:1993-2135 | a table that starts empty and goes through a run of writes holds exactly the written cells, each with a value its last writer allowed |
| `Retrieval.ReplayCells` | geedar_lib/geedar.py:1993-2135 | from empty tables, a cell is present exactly when some request wrote it, it holds a value the last such request wrote, and it lies in a valid row |
| `Retrieval.ReduceBatch` | geedar_lib/geedar.py:2102-2126 | the outcome is `reduction`'s for the product's bands and the estimation parameters: unevaluated for reducer 0, None without a success, an error for an unknown reducer or no suffix, else the retries' result renamed |
| `Retrieval.WriteBatch` | geedar_lib/geedar.py:2102-2134 | the batch's outcome is the reduction's; a result that brought data is written at the site's rows of each date, touching no other row; otherwise the table is unchanged |
| `Retrieval.AppliedByWriting` | geedar_lib/geedar.py:2102-2135 | a reduction whose result was written into the code's table alone is one step of the record of the run |
| `Retrieval.RunBatch` | geedar_lib/geedar.py:2102-2135 | one batch: the reduction's outcome and its exception; only the code's table changes, and a retrieved result is written at the site's rows of each date |
| `Retrieval.CodeRequestsSnoc` | geedar_lib/geedar.py:2093-2101 | one more batch adds its request, numbered by its position, after the earlier ones |
| `Retrieval.BatchRound` | geedar_lib/geedar.py:2093-2135 | a batch extends the requests by the next of the code's batches, the record of the run by its outcome, and the data flag by whether it brought data |
| `Retrieval.RunBatches` | geedar_lib/geedar.py:2093-2135 | the batches in order, each recorded with its outcome and tables; without an exception exactly the code's batches are requested; an exception is the last batch's |
| `Retrieval.RunCode` | geedar_lib/geedar.py:2049-2135 | a code is skipped when its algorithm does not apply; it fails as its plan does or with the last batch's exception; otherwise it sends the planned requests; `retrieved` says whether a batch brought data |
| `Retrieval.RunCodes` | geedar_lib/geedar.py:2049-2135 | the codes of a site in order, each batch recorded; the requests are the concatenation of the planned ones, or the run stops with the plan's error or the last batch's exception |
| `Retrieval.ConcatenatedErr` | geedar_lib/geedar.py:2049-2135 | the first failing step decides the error of the whole loop |
| `Retrieval.FoldRound` | geedar_lib/geedar.py:2002-2135 | one round of a loop over codes or sites extends the record of the run; without an exception the requests are those of the steps so far; an exception is the first failing step's or the last batch's |
| `Retrieval.CodeRound` | geedar_lib/geedar.py:2049-2135 | one code of a site, folded into the site's requests, outcomes and record; only the site's rows are touched |
| `Retrieval.RunSiteCode` | geedar_lib/geedar.py:2049-2135 | one code of a site sends that code's planned requests or fails as its plan or last batch does; every other code's table is unchanged |
| `Retrieval.RunSite` | geedar_lib/geedar.py:2047-2135 | a site sends its planned requests, recorded batch by batch, and touches only its own rows |
| `Retrieval.RunSites` | geedar_lib/geedar.py:2002-2135 | the sites in order: the record of the run leads from the tables before to the tables after; no exception means exactly the planned requests; an exception is the plan's first error or the last batch's |
| `Retrieval.RunEachSite` | geedar_lib/geedar.py:2002-2135 | the loop over sites, given the sites' planned results, with the same guarantees |
| `Retrieval.RunSiteStep` | geedar_lib/geedar.py:2002-2135 | one site: nothing without an area of interest; otherwise its planned requests, writing only its rows |
| `Retrieval.Snapshot` | geedar_lib/geedar.py:2137-2193 | the tables handed to consolidation are the tables' columns and cells |
| `Retrieval.CodeKeys` | geedar_lib/geedar.py:1993-1996 | the tables are keyed by exactly the plans' codes, each listed once in the consolidation order |
| `Retrieval.FillTables` | geedar_lib/geedar.py:1990-2135 | the tables start empty, one per code; the record of the run leads to what they hold at the end; the requests and exception are as for `RunSites` |
| `Retrieval.RunAgrees` | geedar_lib/geedar.py:2104-2193 | the last batch's exception, else the plan's error, else the consolidation of the tables is the result |
| `Retrieval.Retrieve` | geedar_lib/geedar.py:1990-2193 | the tables start empty and are followed request by request; the result is the last batch's exception, else the plan's first error, else (after exactly the planned requests) the consolidation of the tables, with `retrieved` true exactly when a batch brought data |
| `Retrieval.RetrievedCells` | geedar_lib/geedar.py:1993-2193 | the tables handed to consolidation hold exactly the cells the requests wrote, each with a value its last writer wrote, only in valid rows |
| `Retrieval.Demanded` | geedar_lib/geedar.py:1809-1975 | an accepted demand is well prepared |
| `Retrieval.SpecificDatesRetrieval` | geedar_lib/geedar.py:1775-2193 | an input error ends the run before any request; otherwise the run is as `Retrieve` on the prepared demand |

## Left out

- Earth Engine expression building is left out: image processing, masking, estimation formulas and reducer construction. These are remote, floating-point computations. The reduction service and its per-date fallback are oracles.
- `getAvailableDates`, `aoi.area()`, `getInfo()`, `polygonFromKML` and `os.path.isfile` are oracles in `Remote`. `sleep(30)` is a recorded `Sleep` event.
- `unfoldProcessingCode` and the registries' contents are not part of this model. The plans and the registries are parameters.
- I/O is left out: CSV and KML reading (`loadInputDF`), `writeToLogFile`, `print`, `chdir`, `copyfile` and `to_csv`.
- A repeated processing code gets a single table, as the dictionary does. The plans are given zipped, so lists of unequal length cannot be expressed.
- pandas semantics are not modelled: dtypes, NaN, `astype`, and the date parsing of `pd.to_datetime` (geedar.py:1852). The date column arrives already parsed: a parsed date is a `Day` cell, and a `Text` cell stands for a value `pd.to_datetime` cannot parse, so `DateColumnParses` refuses it. Missing values are `Missing`. A date string compared with a result key is a day equality. The duplicate index that `pd.concat` leaves is not modelled.
- Column order in append-mode consolidation follows a Python set. The model states the set of data columns, not their order.
- Dictionary key order is not carried. Results are Dafny maps, and the renaming and writing loops are stated for the collision-free case.
- The `aoi_radius` buffer and the coordinate-mismatch warning are left out: they only shape the remote geometry or print.
- `cli.py` calls `specificDatesRetrieval()` with no arguments. The settings, including the time window, are parameters of the model.
- PyText.ParseInt: Python's `int()` also strips surrounding whitespace and accepts non-ASCII decimal digits (Arabic-Indic, full-width); the model accepts ASCII digits only. The value of an underscore-grouped string is stated through `Ungrouped`, not as a closed form.
- Batching.GroupLen: `max_n_proc_pixels/nPixelsInAoI` at geedar.py:2089 is a float division; the model divides exactly, as reals, so float rounding before `math.ceil` is not captured.
- PyText.Lower: only A-Z are folded. Python's `str.lower` also folds other scripts, and can change the length (`'İ'.lower()` has two characters).
- Cli.AoiRadius: `aoi_radius` and `time_window` are typer integer options, so the `!= ""` test at cli.py:125 always holds and the KML selection of lines 134-135 is unreachable; the model takes integers and leaves that branch out.
- Retrieval.PlansKnown: it requires every registry lookup of a plan to succeed. The `KeyError` of an unknown image processing algorithm, product or estimation algorithm is not modelled.
- Retrieval.Retrieve: the record of the run follows the tables' cells. The columns of each table are stated only as growing with names from the naming rule (`WriteResult`), so column order and the columns of empty results are not tied to the requests.
- Retrieval.Start: its contract omits that a conversion error is passed on. `SpecificDatesRetrieval` states that input errors end the run.
- Reduction.ResultComesFromService: this states where a result comes from. The converse, that any success gives a result, is stated only for the first success (`FirstSuccessReturned`) and for the fallback (`FallbackExact`).

## Findings

| source | as written | input that shows it | evidently intended | confidence | as-written member | corrected member |
|---|---|---|---|---|---|---|
| geedar_lib/geedar.py:1698-1706 | the exception is raised when the range columns ARE present | the header `id, start_date, end_date` is rejected | raise when they are missing | not executed; high | `DateRanges.WellFormedHeaderRejectedAsWritten` | `DateRanges.ToSpecificDatesDF` |
| geedar_lib/geedar.py:1342-1346 | the message's continuation lines start with a unary `+` on a str, which raises TypeError | an algorithm needing "red" on a product with only "NIR" | warn, skip the algorithm, and go on | not executed; high | `Estimation.InapplicableAlgorithmRaisesAsWritten` | `Estimation.Session.Estimation` |
| geedar_lib/cli.py:55 | `len(running_mode)` is applied to the int just parsed | `running_mode = "1"` raises TypeError | check against the list of available modes | not executed; high | `Cli.ExplicitModeRejectedAsWritten` | `Cli.DetectRunningMode` |
| geedar_lib/geedar.py:1812 | `toSpecificDatesDF()` is called without its argument, and line 1770 assigns the result to a local | any mode-2 run raises TypeError | convert the global `input_df` and use the result | not executed; high | `Retrieval.NoFreshRunStartsAsWritten` | `Retrieval.Start` |
| geedar_lib/geedar.py:1933 | the global `time_window` is only assigned in mode 2, so other modes read an undefined name | a mode-1 run whose caller has set the module-level `input_df` raises NameError at line 1933; a run started from cli.py:153-154 fails earlier, at geedar.py:1821-1825, because `loadInputDF` assigns a local `input_df` at line 1679 and the module-level frame of line 26 stays empty | use the validated time window of the command line | not executed; high | `Retrieval.StartAsWritten` | `Retrieval.SpecificDatesRetrieval` |
