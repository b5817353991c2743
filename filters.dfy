/**
 * The sidebar filters of the dashboard: the charge-point option list, the
 * inclusive date range, charge-point equality and the case-insensitive
 * `id_tag` search, applied one after another to the loaded table.
 */
module Filters {
  import opened Wrappers
  import opened Sequences
  import Text
  import opened Transactions

  /** The option that stands for "every charge point". */
  const All: string := "全部"

  // ---------------------------------------------------------------- dates

  /** The earliest start date of a non-empty table. */
  function MinDate(rows: seq<Row>): (d: int)
    requires |rows| > 0
    ensures exists r :: r in rows && r.start.date == d
    ensures forall r :: r in rows ==> d <= r.start.date
    decreases |rows|
  {
    if |rows| == 1 then rows[0].start.date
    else
      var rest := MinDate(rows[1..]);
      assert forall r :: r in rows ==> r == rows[0] || r in rows[1..];
      if rows[0].start.date <= rest then rows[0].start.date else rest
  }

  /** The latest start date of a non-empty table. */
  function MaxDate(rows: seq<Row>): (d: int)
    requires |rows| > 0
    ensures exists r :: r in rows && r.start.date == d
    ensures forall r :: r in rows ==> r.start.date <= d
    decreases |rows|
  {
    if |rows| == 1 then rows[0].start.date
    else
      var rest := MaxDate(rows[1..]);
      assert forall r :: r in rows ==> r == rows[0] || r in rows[1..];
      if rows[0].start.date >= rest then rows[0].start.date else rest
  }

  function InRange(start: int, end: int): Row -> bool {
    (r: Row) => start <= r.start.date <= end
  }

  /** Rows whose start date lies in the inclusive range [start, end], in order. */
  function DateFilter(rows: seq<Row>, start: int, end: int): (kept: seq<Row>)
    ensures forall r :: r in kept <==> r in rows && start <= r.start.date <= end
    ensures IsSubseq(kept, rows)
  {
    Keep(rows, InRange(start, end))
  }

  /** The date picker's default range, [earliest, latest], keeps every row. */
  lemma DefaultRangeKeepsAll(rows: seq<Row>)
    requires |rows| > 0
    ensures DateFilter(rows, MinDate(rows), MaxDate(rows)) == rows
  {
    KeepAll(rows, InRange(MinDate(rows), MaxDate(rows)));
  }

  // -------------------------------------------------------- charge points

  /** The charge-point ids that are present (not NULL), in table order. */
  function PresentCpIds(rows: seq<Row>): (ids: seq<string>)
    ensures forall c :: c in ids <==> exists r :: r in rows && r.cpId == Some(c)
    decreases |rows|
  {
    if rows == [] then []
    else
      assert forall r :: r in rows <==> r == rows[0] || r in rows[1..];
      (if rows[0].cpId.Some? then [rows[0].cpId.value] else []) + PresentCpIds(rows[1..])
  }

  /**
   * The charge-point select box: "all" first, then every distinct id in
   * ascending string order. NULL ids are not offered (see the as-written
   * variant below).
   */
  function CpOptions(rows: seq<Row>): (options: seq<string>)
    ensures |options| >= 1 && options[0] == All
    ensures Text.Ascending(options[1..])
    ensures forall c :: c in options[1..] <==> exists r :: r in rows && r.cpId == Some(c)
  {
    var ids := Text.SortedDistinct(PresentCpIds(rows));
    assert ([All] + ids)[1..] == ids;
    [All] + ids
  }

  function Lift(s: seq<string>): (r: seq<Option<string>>)
    ensures |r| == |s| && forall i :: 0 <= i < |s| ==> r[i] == Some(s[i])
  {
    seq(|s|, i requires 0 <= i < |s| => Some(s[i]))
  }

  /**
   * The option list as the dashboard builds it: `["全部"] + sorted(unique ids)`,
   * where a NULL id is Python's `None`. `sorted` must compare every element
   * of a list of two or more, and comparing `None` with a string raises
   * `TypeError`: `None` stands for that failure. A lone `None` is offered as
   * an option of its own.
   */
  function CpOptionsAsWritten(rows: seq<Row>): (options: Option<seq<Option<string>>>)
    ensures options.None? <==>
      (exists r :: r in rows && r.cpId.None?) && (exists r :: r in rows && r.cpId.Some?)
  {
    var hasNull := exists r :: r in rows && r.cpId.None?;
    var ids := PresentCpIds(rows);
    if hasNull && |ids| > 0 then
      assert ids[0] in ids;
      None
    else if hasNull then Some([Some(All), None])
    else Some([Some(All)] + Lift(Text.SortedDistinct(ids)))
  }

  /** Without NULL ids the as-written list and the corrected one agree. */
  lemma AsWrittenAgreesWithoutNulls(rows: seq<Row>)
    requires forall r :: r in rows ==> r.cpId.Some?
    ensures CpOptionsAsWritten(rows) == Some(Lift(CpOptions(rows)))
  {
    var ids := Text.SortedDistinct(PresentCpIds(rows));
    assert Lift([All] + ids) == [Some(All)] + Lift(ids);
  }

  /** One NULL id beside a real one makes the as-written list fail. */
  lemma AsWrittenFailsOnNullCp()
    ensures var rows := [
        Row(2, Some("CP01"), 7, Some("user1"), Stamp(1, 9), 0, 10, 10),
        Row(1, None, 8, Some("user2"), Stamp(1, 18), 5, 15, 10)];
      CpOptionsAsWritten(rows) == None && CpOptions(rows) == [All, "CP01"]
  {
    var rows := [
      Row(2, Some("CP01"), 7, Some("user1"), Stamp(1, 9), 0, 10, 10),
      Row(1, None, 8, Some("user2"), Stamp(1, 18), 5, 15, 10)];
    assert rows[0] in rows && rows[1] in rows;
    var opts := CpOptions(rows);
    assert opts[1..] == ["CP01"] by {
      assert forall c :: c in opts[1..] <==> c == "CP01";
      Text.AscendingDistinct(opts[1..]);
    }
  }

  function CpMatches(selected: string): Row -> bool {
    (r: Row) => selected == All || r.cpId == Some(selected)
  }

  /** "全部" keeps the table; any other choice keeps the rows of that charge point. */
  function CpFilter(rows: seq<Row>, selected: string): (kept: seq<Row>)
    ensures selected == All ==> kept == rows
    ensures forall r :: r in kept <==> r in rows && (selected == All || r.cpId == Some(selected))
    ensures IsSubseq(kept, rows)
  {
    if selected == All then
      KeepAll(rows, CpMatches(selected));
      rows
    else Keep(rows, CpMatches(selected))
  }

  // ---------------------------------------------------------------- id_tag

  function TagMatches(term: string): Row -> bool {
    (r: Row) => term == "" || (r.idTag.Some? && Text.ContainsIgnoringCase(r.idTag.value, term))
  }

  /**
   * An empty search keeps the table; otherwise the rows whose `id_tag`
   * contains the term ignoring case. A NULL tag never matches.
   */
  function TagFilter(rows: seq<Row>, term: string): (kept: seq<Row>)
    ensures term == "" ==> kept == rows
    ensures term != "" ==> forall r :: r in kept <==>
      r in rows && r.idTag.Some? && Text.ContainsIgnoringCase(r.idTag.value, term)
    ensures IsSubseq(kept, rows)
  {
    if term == "" then
      KeepAll(rows, TagMatches(term));
      rows
    else Keep(rows, TagMatches(term))
  }

  // ---------------------------------------------------------------- chain

  /** Every active predicate at once. */
  function Selected(start: int, end: int, cp: string, term: string): Row -> bool {
    (r: Row) => InRange(start, end)(r) && CpMatches(cp)(r) && TagMatches(term)(r)
  }

  /** The filters in the dashboard's order: date range, charge point, tag. */
  function ApplyFilters(rows: seq<Row>, start: int, end: int, cp: string, term: string): seq<Row> {
    TagFilter(CpFilter(DateFilter(rows, start, end), cp), term)
  }

  lemma CpFilterIsKeep(rows: seq<Row>, cp: string)
    ensures CpFilter(rows, cp) == Keep(rows, CpMatches(cp))
  {
    if cp == All { KeepAll(rows, CpMatches(cp)); }
  }

  lemma TagFilterIsKeep(rows: seq<Row>, term: string)
    ensures TagFilter(rows, term) == Keep(rows, TagMatches(term))
  {
    if term == "" { KeepAll(rows, TagMatches(term)); }
  }

  /** The chain keeps exactly the rows meeting every predicate, in their order. */
  lemma FilterChainSelects(rows: seq<Row>, start: int, end: int, cp: string, term: string)
    ensures ApplyFilters(rows, start, end, cp, term) == Keep(rows, Selected(start, end, cp, term))
  {
    CpFilterIsKeep(DateFilter(rows, start, end), cp);
    TagFilterIsKeep(CpFilter(DateFilter(rows, start, end), cp), term);
    KeepThrice(rows, InRange(start, end), CpMatches(cp), TagMatches(term), Selected(start, end, cp, term));
  }

  /** Applying the three filters in the reverse order gives the same table. */
  lemma FilterOrderIrrelevant(rows: seq<Row>, start: int, end: int, cp: string, term: string)
    ensures DateFilter(CpFilter(TagFilter(rows, term), cp), start, end)
         == ApplyFilters(rows, start, end, cp, term)
  {
    TagFilterIsKeep(rows, term);
    CpFilterIsKeep(TagFilter(rows, term), cp);
    KeepThrice(rows, TagMatches(term), CpMatches(cp), InRange(start, end), Selected(start, end, cp, term));
    FilterChainSelects(rows, start, end, cp, term);
  }

  /** Selection keeps the loaded table's newest-first order. */
  lemma {:induction false} KeepDescending(rows: seq<Row>, p: Row -> bool)
    requires DescendingById(rows)
    ensures DescendingById(Keep(rows, p))
    decreases |rows|
  {
    if rows != [] {
      KeepDescending(rows[1..], p);
      assert forall y :: y in rows[1..] ==> rows[0].id >= y.id;
    }
  }
}
