/**
 * The summaries the dashboard draws from the filtered table: energy per
 * day, distinct transactions per day, energy per time-of-day period,
 * energy per charge point, the estimated charging time, and the columns
 * of the displayed table.
 */
module Aggregates {
  import opened Wrappers
  import Sequences
  import Text
  import opened Transactions

  // ------------------------------------------------------------ group-by

  /** One row of a `groupby(key)['used_kwh'].sum().reset_index()` result. */
  datatype Entry<K> = Entry(key: K, total: int)

  /** The energy of the whole table. */
  function Total(rows: seq<Row>): int
    decreases |rows|
  {
    if rows == [] then 0 else rows[0].usedKwh + Total(rows[1..])
  }

  /** The energy of the rows whose key is `k`. */
  function SumWhere<K(==)>(rows: seq<Row>, key: Row -> K, k: K): int
    decreases |rows|
  {
    if rows == [] then 0
    else (if key(rows[0]) == k then rows[0].usedKwh else 0) + SumWhere(rows[1..], key, k)
  }

  /** The sum of a group-by result's totals. */
  function EntriesTotal<K>(g: seq<Entry<K>>): int
    decreases |g|
  {
    if g == [] then 0 else g[0].total + EntriesTotal(g[1..])
  }

  /** One entry per key of `keys`, in that order, totalling that key's energy. */
  function GroupBy<K(==)>(rows: seq<Row>, key: Row -> K, keys: seq<K>): (g: seq<Entry<K>>)
    ensures |g| == |keys|
    ensures forall i :: 0 <= i < |g| ==> g[i].key == keys[i] && g[i].total == SumWhere(rows, key, keys[i])
    decreases |keys|
  {
    if keys == [] then [] else [Entry(keys[0], SumWhere(rows, key, keys[0]))] + GroupBy(rows, key, keys[1..])
  }

  /** Adding one row adds its energy to the total of the one group it falls in. */
  lemma {:induction false} GroupByCons<K>(x: Row, rows: seq<Row>, key: Row -> K, keys: seq<K>)
    requires Sequences.Distinct(keys)
    ensures EntriesTotal(GroupBy([x] + rows, key, keys))
         == (if key(x) in keys then x.usedKwh else 0) + EntriesTotal(GroupBy(rows, key, keys))
    decreases |keys|
  {
    if keys != [] {
      assert ([x] + rows)[1..] == rows;
      assert Sequences.Distinct(keys[1..]);
      GroupByCons(x, rows, key, keys[1..]);
    }
  }

  /** Grouping by distinct keys that cover every row conserves the total energy. */
  lemma {:induction false} GroupByConserves<K>(rows: seq<Row>, key: Row -> K, keys: seq<K>)
    requires Sequences.Distinct(keys)
    requires forall r :: r in rows ==> key(r) in keys
    ensures EntriesTotal(GroupBy(rows, key, keys)) == Total(rows)
    decreases |rows|
  {
    if rows == [] {
      GroupByEmpty(key, keys);
    } else {
      assert rows == [rows[0]] + rows[1..];
      GroupByCons(rows[0], rows[1..], key, keys);
      GroupByConserves(rows[1..], key, keys);
    }
  }

  lemma {:induction false} GroupByEmpty<K>(key: Row -> K, keys: seq<K>)
    ensures EntriesTotal(GroupBy([], key, keys)) == 0
    decreases |keys|
  {
    if keys != [] { GroupByEmpty(key, keys[1..]); }
  }

  /** The key of every row, in table order. */
  function KeysOf<K(!new)>(rows: seq<Row>, key: Row -> K): (ks: seq<K>)
    ensures |ks| == |rows| && forall i :: 0 <= i < |rows| ==> ks[i] == key(rows[i])
    ensures forall k :: k in ks <==> exists r :: r in rows && key(r) == k
  {
    var ks := seq(|rows|, i requires 0 <= i < |rows| => key(rows[i]));
    assert forall r :: r in rows ==> key(r) in ks by {
      forall r | r in rows ensures key(r) in ks {
        var i :| 0 <= i < |rows| && rows[i] == r;
        assert ks[i] == key(r);
      }
    }
    ks
  }

  /** The key column of a group-by result. */
  function Keys<K>(g: seq<Entry<K>>): (ks: seq<K>)
    ensures |ks| == |g| && forall i :: 0 <= i < |g| ==> ks[i] == g[i].key
  {
    seq(|g|, i requires 0 <= i < |g| => g[i].key)
  }

  // --------------------------------------------------------------- daily

  function DateOf(r: Row): int { r.start.date }

  /** The distinct start dates, ascending. */
  function Dates(rows: seq<Row>): (ds: seq<int>)
    ensures Sequences.Ascending(ds) && Sequences.Distinct(ds)
    ensures forall d :: d in ds <==> exists r :: r in rows && r.start.date == d
  {
    Sequences.SortedDistinct(KeysOf(rows, DateOf))
  }

  /**
   * `groupby('date')['used_kwh'].sum()`: one entry per date in ascending
   * order, each the energy of that date's rows, together the table's energy.
   */
  function DailySum(rows: seq<Row>): (g: seq<Entry<int>>)
    ensures Keys(g) == Dates(rows)
    ensures forall i :: 0 <= i < |g| ==> g[i].total == SumWhere(rows, DateOf, g[i].key)
    ensures EntriesTotal(g) == Total(rows)
  {
    var ds := Dates(rows);
    var g := GroupBy(rows, DateOf, ds);
    GroupByConserves(rows, DateOf, ds);
    g
  }

  /** The distinct `transaction_id`s of the rows started on date `d`. */
  function TidsOn(rows: seq<Row>, d: int): (tids: set<int>)
    ensures forall t :: t in tids <==> exists r :: r in rows && r.start.date == d && r.transactionId == t
    decreases |rows|
  {
    if rows == [] then {}
    else
      assert forall r :: r in rows <==> r == rows[0] || r in rows[1..];
      (if rows[0].start.date == d then {rows[0].transactionId} else {}) + TidsOn(rows[1..], d)
  }

  /** How many rows started on date `d`. */
  function RowsOn(rows: seq<Row>, d: int): nat
    decreases |rows|
  {
    if rows == [] then 0 else (if rows[0].start.date == d then 1 else 0) + RowsOn(rows[1..], d)
  }

  /** A date has no more distinct transactions than rows. */
  lemma {:induction false} TidsBound(rows: seq<Row>, d: int)
    ensures |TidsOn(rows, d)| <= RowsOn(rows, d)
    decreases |rows|
  {
    if rows != [] { TidsBound(rows[1..], d); }
  }

  /**
   * `groupby('date')['transaction_id'].nunique()`: per date, the number of
   * distinct transaction ids, between 1 and that date's row count.
   */
  function DailyCount(rows: seq<Row>): (g: seq<Entry<int>>)
    ensures Keys(g) == Dates(rows)
    ensures forall i :: 0 <= i < |g| ==> g[i].total == |TidsOn(rows, g[i].key)|
    ensures forall i :: 0 <= i < |g| ==> 1 <= g[i].total <= RowsOn(rows, g[i].key)
  {
    var ds := Dates(rows);
    forall d | d in ds ensures 1 <= |TidsOn(rows, d)| <= RowsOn(rows, d) {
      TidsBound(rows, d);
      var r :| r in rows && r.start.date == d;
      assert r.transactionId in TidsOn(rows, d);
    }
    seq(|ds|, i requires 0 <= i < |ds| => Entry(ds[i], |TidsOn(rows, ds[i])|))
  }

  // ------------------------------------------------------------- periods

  datatype Period = Peak | Mid | OffPeak

  /** `classify_time`: 17-21 peak, 10-16 mid, every other hour off-peak. */
  function Classify(h: Hour): (p: Period)
    ensures p == Peak <==> 17 <= h <= 21
    ensures p == Mid <==> 10 <= h <= 16
    ensures p == OffPeak <==> h <= 9 || 22 <= h
  {
    if 17 <= h <= 21 then Peak
    else if 10 <= h <= 16 then Mid
    else OffPeak
  }

  /** The label the dashboard shows and groups by. */
  function Label(p: Period): string {
    match p
    case Peak => "尖峰時段"
    case Mid => "平時時段"
    case OffPeak => "離峰時段"
  }

  /** Labels sort peak, mid, off-peak, the order of their first characters. */
  lemma LabelOrder()
    ensures Text.Less(Label(Peak), Label(Mid)) && Text.Less(Label(Mid), Label(OffPeak))
  {
  }

  /** Distinct periods have distinct labels. */
  lemma LabelInjective()
    ensures forall p, q :: Label(p) == Label(q) ==> p == q
  {
    forall p, q | Label(p) == Label(q) ensures p == q {
      assert Label(p)[0] == Label(q)[0];
    }
  }

  function PeriodOf(r: Row): string { Label(Classify(r.start.hour)) }

  /**
   * `groupby('period')['used_kwh'].sum()`: one entry per period that occurs,
   * in label order, each that period's energy, together the table's energy.
   */
  function PeriodSum(rows: seq<Row>): (g: seq<Entry<string>>)
    ensures Text.Ascending(Keys(g))
    ensures forall c :: c in Keys(g) <==> exists r :: r in rows && PeriodOf(r) == c
    ensures forall p :: Label(p) in Keys(g) <==> exists r :: r in rows && Classify(r.start.hour) == p
    ensures forall i :: 0 <= i < |g| ==> g[i].total == SumWhere(rows, PeriodOf, g[i].key)
    ensures EntriesTotal(g) == Total(rows)
  {
    var labels := Text.SortedDistinct(KeysOf(rows, PeriodOf));
    Text.AscendingDistinct(labels);
    var g := GroupBy(rows, PeriodOf, labels);
    GroupByConserves(rows, PeriodOf, labels);
    assert Keys(g) == labels;
    LabelInjective();
    g
  }

  // ------------------------------------------------------- charge points

  /** The name NULL charge-point ids are grouped under (`fillna("未知")`). */
  const Unknown: string := "未知"

  function CpOrUnknown(r: Row): string { r.cpId.GetOr(Unknown) }

  /**
   * `groupby('cp_id')['used_kwh'].sum()` after NULL ids become "未知": one
   * entry per charge point in string order, together the table's energy,
   * so no row is dropped.
   */
  function CpSum(rows: seq<Row>): (g: seq<Entry<string>>)
    ensures Text.Ascending(Keys(g))
    ensures forall c :: c in Keys(g) <==> exists r :: r in rows && CpOrUnknown(r) == c
    ensures forall i :: 0 <= i < |g| ==> g[i].total == SumWhere(rows, CpOrUnknown, g[i].key)
    ensures EntriesTotal(g) == Total(rows)
  {
    var ids := Text.SortedDistinct(KeysOf(rows, CpOrUnknown));
    Text.AscendingDistinct(ids);
    var g := GroupBy(rows, CpOrUnknown, ids);
    GroupByConserves(rows, CpOrUnknown, ids);
    assert Keys(g) == ids;
    g
  }

  // ------------------------------------------------------------ duration

  /** The power the charging-time estimate assumes, in kW. */
  const AssumedPowerKw: real := 7.2

  /** `used_kwh / 7.2` hours, in minutes. */
  function DurationMinutes(r: Row): real {
    r.usedKwh as real / AssumedPowerKw * 60.0
  }

  function SumDurations(rows: seq<Row>): real
    decreases |rows|
  {
    if rows == [] then 0.0 else DurationMinutes(rows[0]) + SumDurations(rows[1..])
  }

  /** The estimated minutes add up to the table's energy at 7.2 kW. */
  lemma {:induction false} SumDurationsScales(rows: seq<Row>)
    ensures SumDurations(rows) == Total(rows) as real * 60.0 / AssumedPowerKw
    decreases |rows|
  {
    if rows != [] { SumDurationsScales(rows[1..]); }
  }

  /**
   * `charge_duration.mean()`: the table's energy at 7.2 kW spread over its
   * rows; `None` for an empty table, where the dashboard shows NaN.
   */
  function MeanDuration(rows: seq<Row>): (m: Option<real>)
    ensures m.None? <==> rows == []
    ensures m.Some? ==> m.value * |rows| as real == Total(rows) as real * 60.0 / AssumedPowerKw
  {
    if rows == [] then None
    else
      SumDurationsScales(rows);
      Some(SumDurations(rows) / |rows| as real)
  }

  // ------------------------------------------------------------- columns

  const BaseColumns: seq<string> := [
    "id", "cp_id", "transaction_id", "id_tag",
    "start_time", "stop_time", "meter_start", "meter_stop", "used_kwh"]

  const OptionalColumns: seq<string> := ["remark", "status", "rate_type"]

  /** The columns of the table the dashboard holds when it displays it. */
  const TableColumns: seq<string> := BaseColumns + [
    "datetime", "date", "hour", "period", "end_time", "charge_duration"]

  /** The base columns, then those optional columns the table has, in their order. */
  function DisplayColumns(columns: seq<string>): (shown: seq<string>)
    ensures |shown| >= |BaseColumns| && shown[..|BaseColumns|] == BaseColumns
    ensures Sequences.IsSubseq(shown[|BaseColumns|..], OptionalColumns)
    ensures forall c :: c in shown[|BaseColumns|..] <==> c in OptionalColumns && c in columns
  {
    var extra := Sequences.Keep(OptionalColumns, c => c in columns);
    assert (BaseColumns + extra)[|BaseColumns|..] == extra;
    BaseColumns + extra
  }

  /** The query never yields an optional column, so exactly the base columns are shown. */
  lemma DisplayedColumnsAreBase()
    ensures DisplayColumns(TableColumns) == BaseColumns
  {
    assert forall c :: c in OptionalColumns ==> c !in TableColumns;
    Sequences.KeepNone(OptionalColumns, c => c in TableColumns);
  }
}
