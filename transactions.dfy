/**
 * Charging transactions as stored in the `transactions` table and as the
 * dashboard loads them: only sessions with both meter readings, with the
 * derived `used_kwh`, newest `id` first.
 */
module Transactions {
  import opened Wrappers

  /** An hour of the day, as `Timestamp.hour` yields it. */
  type Hour = h: int | 0 <= h < 24

  /** A `start_time` already parsed: a calendar date (as a day number) and its hour. */
  datatype Stamp = Stamp(date: int, hour: Hour)

  /** One row of the `transactions` table; nullable columns are `Option`s. */
  datatype Record = Record(
    id: int,
    cpId: Option<string>,
    transactionId: int,
    idTag: Option<string>,
    start: Stamp,
    meterStart: Option<int>,
    meterStop: Option<int>)

  /** One row of the loaded table: both readings present, plus `used_kwh`. */
  datatype Row = Row(
    id: int,
    cpId: Option<string>,
    transactionId: int,
    idTag: Option<string>,
    start: Stamp,
    meterStart: int,
    meterStop: int,
    usedKwh: int)

  /** The query's `WHERE meter_start IS NOT NULL AND meter_stop IS NOT NULL`. */
  predicate Complete(rec: Record) {
    rec.meterStart.Some? && rec.meterStop.Some?
  }

  /** The selected columns of a complete record, with `meter_stop - meter_start AS used_kwh`. */
  function ToRow(rec: Record): (r: Row)
    requires Complete(rec)
    ensures r.id == rec.id && r.cpId == rec.cpId && r.transactionId == rec.transactionId
    ensures r.idTag == rec.idTag && r.start == rec.start
    ensures Some(r.meterStart) == rec.meterStart && Some(r.meterStop) == rec.meterStop
    ensures r.meterStart + r.usedKwh == r.meterStop
  {
    Row(rec.id, rec.cpId, rec.transactionId, rec.idTag, rec.start,
        rec.meterStart.value, rec.meterStop.value,
        rec.meterStop.value - rec.meterStart.value)
  }

  /** The rows the query selects, before ordering: complete records, in table order. */
  function Select(table: seq<Record>): (rows: seq<Row>)
    ensures |rows| <= |table|
    ensures forall r :: r in rows <==> exists rec :: rec in table && Complete(rec) && r == ToRow(rec)
    decreases |table|
  {
    if table == [] then []
    else
      var rest := Select(table[1..]);
      assert forall rec :: rec in table <==> rec == table[0] || rec in table[1..];
      if Complete(table[0]) then [ToRow(table[0])] + rest else rest
  }

  /** `ORDER BY id DESC`: ids never increase along the table. */
  predicate DescendingById(rows: seq<Row>) {
    forall i, j :: 0 <= i < j < |rows| ==> rows[i].id >= rows[j].id
  }

  /** A row whose id bounds every id of a newest-first table can go in front of it. */
  lemma PrependDescending(x: Row, rows: seq<Row>)
    requires DescendingById(rows)
    requires forall y :: y in rows ==> x.id >= y.id
    ensures DescendingById([x] + rows)
  {
    var r := [x] + rows;
    forall i, j | 0 <= i < j < |r| ensures r[i].id >= r[j].id {
      assert r[j] == rows[j - 1] && rows[j - 1] in rows;
      if i > 0 { assert r[i] == rows[i - 1]; }
    }
  }

  /** Inserts `x` after every row whose id is at least its own, so equal ids keep their order. */
  function InsertById(x: Row, rows: seq<Row>): (r: seq<Row>)
    requires DescendingById(rows)
    ensures DescendingById(r)
    ensures forall y :: y in r <==> y == x || y in rows
    ensures multiset(r) == multiset(rows) + multiset{x}
    decreases |rows|
  {
    if rows == [] || x.id > rows[0].id then
      assert forall y :: y in rows ==> rows[0].id >= y.id;
      PrependDescending(x, rows);
      [x] + rows
    else
      var head, tail := rows[0], rows[1..];
      var rest := InsertById(x, tail);
      assert rows == [head] + tail;
      assert forall y :: y in tail ==> head.id >= y.id;
      PrependDescending(head, rest);
      assert multiset([head] + rest) == multiset{head} + multiset(rest);
      [head] + rest
  }

  /** The rows reordered by descending `id` (insertion sort). */
  function SortById(rows: seq<Row>): (r: seq<Row>)
    ensures DescendingById(r)
    ensures multiset(r) == multiset(rows)
    decreases |rows|
  {
    if rows == [] then []
    else
      assert rows == rows[..|rows| - 1] + [rows[|rows| - 1]];
      InsertById(rows[|rows| - 1], SortById(rows[..|rows| - 1]))
  }

  /** Two rows with the same id come out in table order. */
  lemma EqualIdsKeepOrder(a: Row, b: Row)
    requires a.id == b.id
    ensures SortById([a, b]) == [a, b]
  {
    assert [a, b][..1] == [a];
    assert SortById([a]) == [a];
  }

  /** The whole query: the complete records as rows, newest `id` first. */
  function Load(table: seq<Record>): (rows: seq<Row>)
    ensures DescendingById(rows)
    ensures multiset(rows) == multiset(Select(table))
    ensures forall r :: r in rows ==> r.meterStart + r.usedKwh == r.meterStop
    ensures forall r :: r in rows <==> exists rec :: rec in table && Complete(rec) && r == ToRow(rec)
  {
    var rows := SortById(Select(table));
    assert forall r :: r in rows <==> r in multiset(rows);
    assert forall r :: r in Select(table) <==> r in multiset(Select(table));
    rows
  }

  /** No row is loaded exactly when no record has both readings. */
  lemma LoadEmpty(table: seq<Record>)
    ensures Load(table) == [] <==> forall rec :: rec in table ==> !Complete(rec)
  {
    if Load(table) != [] {
      var r := Load(table)[0];
      assert r in Load(table);
    }
    if exists rec :: rec in table && Complete(rec) {
      var rec :| rec in table && Complete(rec);
      assert ToRow(rec) in Load(table);
    }
  }
}
