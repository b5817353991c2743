/**
 * One pass of the dashboard page after login: load the complete
 * transactions, build the charge-point options, narrow the table by the
 * sidebar choices, then compute every summary it draws.
 */
module Dashboard {
  import opened Wrappers
  import opened Sequences
  import opened Transactions
  import opened Filters
  import opened Aggregates

  datatype Report =
    | NoCompleteData  // the "no complete transaction data" warning
    | Shown(
        options: seq<string>,
        rows: seq<Row>,
        daily: seq<Entry<int>>,
        dailyCount: seq<Entry<int>>,
        periods: seq<Entry<string>>,
        cpShare: seq<Entry<string>>,
        meanMinutes: Option<real>,
        columns: seq<string>)

  /** The date range in force: the one picked, or the picker's default [earliest, latest]. */
  function RangeOf(rows: seq<Row>, picked: Option<(int, int)>): (range: (int, int))
    requires |rows| > 0
    ensures picked.Some? ==> range == picked.value
    ensures picked.None? ==> range == (MinDate(rows), MaxDate(rows))
    ensures picked.None? ==> forall r :: r in rows ==> range.0 <= r.start.date <= range.1
  {
    if picked.Some? then picked.value else (MinDate(rows), MaxDate(rows))
  }

  /**
   * The page's pipeline. `selectedCp`, `searchTag` and `picked` are the
   * sidebar widgets' answers (`picked` is `None` while the date picker
   * shows its default).
   */
  method Run(table: seq<Record>, selectedCp: string, searchTag: string, picked: Option<(int, int)>)
    returns (report: Report)
    ensures report.NoCompleteData? <==> forall rec :: rec in table ==> !Complete(rec)
    ensures report.Shown? ==> Load(table) != [] && report.options == CpOptions(Load(table))
    ensures report.Shown? ==>
      var (start, end) := RangeOf(Load(table), picked);
      report.rows == Keep(Load(table), Selected(start, end, selectedCp, searchTag))
    ensures report.Shown? ==> IsSubseq(report.rows, Load(table)) && DescendingById(report.rows)
    ensures report.Shown? && picked.None? && selectedCp == All && searchTag == "" ==>
      report.rows == Load(table)
    ensures report.Shown? ==>
      report.daily == DailySum(report.rows) && report.dailyCount == DailyCount(report.rows) &&
      report.periods == PeriodSum(report.rows) && report.cpShare == CpSum(report.rows)
    ensures report.Shown? ==>
      EntriesTotal(report.daily) == Total(report.rows) &&
      EntriesTotal(report.periods) == Total(report.rows) &&
      EntriesTotal(report.cpShare) == Total(report.rows)
    ensures report.Shown? ==> report.meanMinutes == MeanDuration(report.rows)
    ensures report.Shown? ==> report.columns == BaseColumns
  {
    var df := Load(table);
    LoadEmpty(table);
    if df == [] {
      return NoCompleteData;
    }
    var options := CpOptions(df);
    var (start, end) := RangeOf(df, picked);
    ghost var loaded := df;

    df := DateFilter(df, start, end);
    if selectedCp != All {
      df := CpFilter(df, selectedCp);
    }
    if searchTag != "" {
      df := TagFilter(df, searchTag);
    }
    FilterChainSelects(loaded, start, end, selectedCp, searchTag);
    assert df == ApplyFilters(loaded, start, end, selectedCp, searchTag);
    KeepDescending(loaded, Selected(start, end, selectedCp, searchTag));
    if picked.None? && selectedCp == All && searchTag == "" {
      DefaultRangeKeepsAll(loaded);
    }

    var daily := DailySum(df);
    var dailyCount := DailyCount(df);
    var periods := PeriodSum(df);
    var cpShare := CpSum(df);
    var meanMinutes := MeanDuration(df);
    DisplayedColumnsAreBase();
    var columns := DisplayColumns(TableColumns);
    report := Shown(options, df, daily, dailyCount, periods, cpShare, meanMinutes, columns);
  }
}
