# Energy dashboard: filter-and-aggregate pipeline

A Dafny model of the reporting core of an EV-charging dashboard
(`dashboard.py`). After login the page loads the charging transactions that
have both meter readings, derives `used_kwh`, offers a charge-point select box,
narrows the table by an inclusive date range, a charge point and a
case-insensitive `id_tag` search, and then summarises the remaining rows:
energy per day, distinct transactions per day, energy per time-of-day period
(peak / mid / off-peak), energy per charge point, an estimated charging time,
and the table's displayed columns.

Modules, one per file:

- `wrappers.dfy` (`Wrappers`): `Option`, for NULL columns.
- `text.dfy` (`Text`): Python's code-point string order, sorted distinct
  strings, ASCII lower-casing and literal substring search.
- `sequences.dfy` (`Sequences`): boolean-mask selection (`Keep`), the
  subsequence relation, sorted distinct integer keys.
- `transactions.dfy` (`Transactions`): the stored record, the loaded row, and
  the load query (WHERE predicate, `used_kwh`, `ORDER BY id DESC`).
- `filters.dfy` (`Filters`): the option list, the three filters and their
  composition.
- `aggregates.dfy` (`Aggregates`): the group-bys, `classify_time`, the
  duration estimate and the displayed columns.
- `dashboard.dfy` (`Dashboard`): the page's pipeline as a method that rebinds
  `df` step by step, as the script does.
- `scenarios.dfy` (`Scenarios`): two small worked tables.

Representation: a start timestamp is taken already parsed into a date (a day
number) and an hour `0 <= hour < 24`; meter readings are unbounded integers
(the table declares them `INTEGER`); the database table and the sidebar
widgets' answers are parameters of `Dashboard.Run`.

Three behaviours of the code worth noting:

- The period summary has entries only for periods that occur. A period with
  no rows gets no entry, not an entry of 0.
- The charge-point share is computed from the filtered table, although its
  heading says "all data" (`所有資料`).
- The mean charging time of an empty filtered table is NaN in the code.
  `Aggregates.MeanDuration` returns `None` there.

## Model

| member | source | states |
|---|---|---|
| `Text.LessTransitive` | dashboard.py:76 | Python's string order is transitive, so sorting the ids is well defined |
| `Text.LessTotal` | dashboard.py:76 | any two different strings are ordered one way or the other |
| `Text.SortedDistinct` | dashboard.py:76 | the result is strictly ascending in Python's string order and holds exactly the input's strings |
| `Text.Contains` | dashboard.py:97 | the recursive search answers true iff the term occurs at some index of the text |
| `Sequences.Keep` | dashboard.py:91-97 | a mask selection keeps exactly the elements passing the mask, each as often as it occurs, in their original order (a subsequence) |
| `Sequences.KeepAll` | dashboard.py:91-97 | a mask every row passes leaves the table unchanged |
| `Sequences.KeepNone` | dashboard.py:200 | a mask no element passes selects nothing |
| `Sequences.KeepThrice` | dashboard.py:91-97 | three successive selections equal one selection by the conjunction, whatever the order of the masks |
| `Sequences.SortedDistinct` | dashboard.py:104 | group keys come out strictly ascending and are exactly the dates present |
| `Transactions.ToRow` | dashboard.py:62-63 | a loaded row keeps the record's columns and has `meter_start + used_kwh == meter_stop` |
| `Transactions.Select` | dashboard.py:62-66 | a row is selected iff it comes from a record with both meter readings present |
| `Transactions.SortById` | dashboard.py:67 | the rows are reordered by non-increasing `id`, as a permutation; equal ids keep their table order |
| `Transactions.EqualIdsKeepOrder` | dashboard.py:67 | two rows with equal ids keep their table order |
| `Transactions.Load` | dashboard.py:60-68 | the loaded table is newest-first, is a permutation of the selected rows, and every row has `used_kwh = meter_stop - meter_start` |
| `Transactions.LoadEmpty` | dashboard.py:71 | the table is empty (the warning branch) iff no record has both readings |
| `Filters.MinDate` | dashboard.py:82 | the earliest date occurs in the table and bounds every row's date from below |
| `Filters.MaxDate` | dashboard.py:83 | the latest date occurs in the table and bounds every row's date from above |
| `Filters.DateFilter` | dashboard.py:91 | keeps exactly the rows with `start <= date <= end`, in order |
| `Filters.DefaultRangeKeepsAll` | dashboard.py:84-91 | with the picker's default range [min date, max date] the date filter keeps every row |
| `Filters.CpOptions` | dashboard.py:76 | the option list is "全部" followed by the distinct present charge-point ids, strictly ascending |
| `Filters.CpOptionsAsWritten` | dashboard.py:76 | the option list as written fails iff the table holds both a NULL and a non-NULL `cp_id` |
| `Filters.AsWrittenAgreesWithoutNulls` | dashboard.py:76 | without NULL ids the as-written list equals the corrected one |
| `Filters.AsWrittenFailsOnNullCp` | dashboard.py:76 | a two-row table with one NULL `cp_id` makes the as-written list fail while the corrected list is ["全部", "CP01"] |
| `Filters.CpFilter` | dashboard.py:93-94 | "全部" leaves the table unchanged; any other choice keeps exactly the rows with that `cp_id`, in order |
| `Filters.TagFilter` | dashboard.py:96-97 | an empty term leaves the table unchanged; otherwise keeps exactly the rows whose non-NULL `id_tag` contains the term ignoring case, in order |
| `Filters.FilterChainSelects` | dashboard.py:91-97 | date, cp and tag filters in sequence keep exactly the rows meeting every active predicate |
| `Filters.FilterOrderIrrelevant` | dashboard.py:91-97 | applying the filters in the reverse order yields the same table |
| `Filters.KeepDescending` | dashboard.py:67 | any selection from the newest-first table is still newest-first |
| `Aggregates.GroupBy` | dashboard.py:104 | one entry per key, in key order, each holding the energy of the rows with that key |
| `Aggregates.GroupByConserves` | dashboard.py:136 | grouping by distinct keys that cover every row conserves the total energy |
| `Aggregates.Dates` | dashboard.py:103 | the distinct start dates, strictly ascending |
| `Aggregates.DailySum` | dashboard.py:103-104 | one entry per distinct date in ascending order, each that date's energy, adding up to the table's energy |
| `Aggregates.TidsBound` | dashboard.py:114 | a date has no more distinct transaction ids than rows |
| `Aggregates.TidsOn` | dashboard.py:114 | exactly the transaction ids of the rows started on that date |
| `Aggregates.DailyCount` | dashboard.py:114 | per date, the number of distinct transaction ids, at least 1 and at most that date's row count |
| `Aggregates.Classify` | dashboard.py:127-133 | peak iff 17 <= hour <= 21, mid iff 10 <= hour <= 16, off-peak iff hour <= 9 or hour >= 22: a partition of the 24 hours |
| `Aggregates.LabelOrder` | dashboard.py:136 | grouping by label lists peak, then mid, then off-peak |
| `Aggregates.LabelInjective` | dashboard.py:135 | different periods carry different labels, so no two periods merge |
| `Aggregates.PeriodSum` | dashboard.py:135-136 | the keys are exactly the labels of the periods that occur, in label order, each with its energy, adding up to the table's energy |
| `Aggregates.CpSum` | dashboard.py:149-151 | after NULL ids become "未知", one entry per charge point in string order, adding up to the table's energy, so no row is dropped |
| `Aggregates.SumDurationsScales` | dashboard.py:172-173 | the estimated minutes add up to the table's energy times 60 / 7.2 |
| `Aggregates.MeanDuration` | dashboard.py:185 | none for an empty table; otherwise mean times row count equals the energy times 60 / 7.2 |
| `Aggregates.DisplayColumns` | dashboard.py:195-200 | the base columns first, then exactly the optional columns the table has, in their listed order |
| `Aggregates.DisplayedColumnsAreBase` | dashboard.py:192-201 | the loaded and derived columns include no optional column, so exactly the base columns are shown |
| `Dashboard.RangeOf` | dashboard.py:84-89 | the picked range, or by default exactly [earliest date, latest date], which contains every row's date |
| `Dashboard.Run` | dashboard.py:59-201 | no report iff no complete record; otherwise the rows are exactly the loaded rows meeting every predicate, newest-first, equal to the loaded table when nothing is chosen, and the day, period and charge-point sums each add up to their energy |
| `Scenarios.ChoosingOneCp` | dashboard.py:93-94 | of a session on "A" and one on "B", choosing "A" keeps only the first |
| `Scenarios.OneDayTotal` | dashboard.py:103-104 | two 10 kWh sessions on one day give one daily entry of 20 |
| `Scenarios.PeakAndOffPeak` | dashboard.py:125-136 | sessions at 18:00 and 08:00 give 10 peak and 10 off-peak, and no mid entry |
| `Scenarios.SearchIgnoresCase` | dashboard.py:96-97 | searching "xyz" among user1, XYZ99 and abc keeps only XYZ99 |

## Left out

- Login, logout and the session flag (dashboard.py:16-49): page state; the credential table lives in a `config` module that is not part of this model.
- The SQLite connection and the schema script `init_db.py`: I/O; the table's records are a parameter of `Dashboard.Run`.
- `query_menu.py`: HTTP requests to a remote API with a fallback to empty results; it has no logic of its own. Any unit conversion of remote meter readings is not in the files modelled.
- Page chrome, Altair charts and all `st.*` rendering: presentation only.
- CSV and Excel export (dashboard.py:205-227): thin calls into pandas and xlsxwriter.
- Timestamp parsing (dashboard.py:81): start times are taken already parsed into a date and an hour, so NULL or unparsable `start_time` values are not modelled.
- `stop_time` is carried by the query but used only as a displayed column name; it is not a field of the model.
- `end_time` (dashboard.py:172): timestamp arithmetic is not modelled; durations are exact reals, without the nanosecond rounding of `to_timedelta`.
- Integer width: SQLite stores 64-bit integers; the model's `used_kwh` is an unbounded integer, so overflow of the subtraction is not modelled.
- A NULL `transaction_id`, which `nunique` would skip, is not modelled; `transactionId` is always present.
- A date picker answer holding only one date (a transient widget state that the unpacking at line 84 rejects) is not modelled.
- `Filters.TagFilter`: the search term is a literal substring with ASCII case folding; `str.contains` treats it as a regular expression with Unicode case folding, so terms with regex metacharacters or non-ASCII letters of different case are out of scope.
- `Text.Contains`: literal substring search only, for the same reason.
- `Aggregates.MeanDuration`: returns `None` where the page shows NaN for an empty filtered table.
- `Transactions.SortById`: ties between equal ids are kept in table order, where the database leaves their order unspecified; the table's `INTEGER PRIMARY KEY` makes ids distinct, so ties do not arise.
- `Dashboard.Run`: builds the option list with the corrected `Filters.CpOptions`, so on a table holding both a NULL and a non-NULL `cp_id` it produces a report where the page stops with a `TypeError` at line 76 (see Findings).

## Findings

| source | as written | input that shows it | evidently intended | confidence | as-written member | corrected member |
|---|---|---|---|---|---|---|
| dashboard.py:76 | the select-box options sort the distinct `cp_id` values, a NULL id included as Python `None`; `sorted` raises `TypeError` when it compares `None` with a string | a loaded table with one row on `CP01` and one row whose `cp_id` is NULL | offer "全部" followed by the sorted present ids (line 150 shows that NULL ids were expected) | not executed; high, since Python 3 does not order `None` against `str` | `Filters.CpOptionsAsWritten` (`Filters.AsWrittenFailsOnNullCp`) | `Filters.CpOptions` |
