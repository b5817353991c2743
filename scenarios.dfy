/** Two small tables worked through the filters and summaries. */
module Scenarios {
  import opened Wrappers
  import Text
  import opened Transactions
  import opened Filters
  import opened Aggregates

  /** A session on CP "A" on day 0 at 18:00 using 10 kWh. */
  const SessionA := Row(2, Some("A"), 1, Some("u1"), Stamp(0, 18), 0, 10, 10)

  /** A session on CP "B" on day 0 at 08:00 using 10 kWh. */
  const SessionB := Row(1, Some("B"), 2, Some("u2"), Stamp(0, 8), 5, 15, 10)

  /** Choosing "A" keeps only the session on A. */
  lemma ChoosingOneCp()
    ensures CpFilter([SessionA, SessionB], "A") == [SessionA]
  {
    assert [SessionA, SessionB][1..] == [SessionB];
    assert CpMatches("A")(SessionA) && !CpMatches("A")(SessionB);
    assert Sequences.Keep([SessionB], CpMatches("A")) == [];
  }

  /** The two sessions make one day of 20 kWh. */
  lemma OneDayTotal()
    ensures DailySum([SessionA, SessionB]) == [Entry(0, 20)]
  {
    var rows := [SessionA, SessionB];
    assert rows[1..] == [SessionB] && [SessionB][1..] == [];
    assert KeysOf(rows, DateOf) == [0, 0];
    assert Sequences.SortedDistinct([0, 0]) == [0];
    assert Dates(rows) == [0];
    assert SumWhere([SessionB], DateOf, 0) == 10;
    assert SumWhere(rows, DateOf, 0) == 20;
    assert GroupBy(rows, DateOf, [0]) == [Entry(0, 20)];
  }

  /**
   * The day splits 10 kWh peak and 10 kWh off-peak; mid hours have no
   * session and so no entry.
   */
  lemma PeakAndOffPeak()
    ensures PeriodSum([SessionA, SessionB]) == [Entry(Label(Peak), 10), Entry(Label(OffPeak), 10)]
  {
    var rows := [SessionA, SessionB];
    assert rows[1..] == [SessionB] && [SessionB][1..] == [];
    assert KeysOf(rows, PeriodOf) == [Label(Peak), Label(OffPeak)];
    assert Text.SortedDistinct([Label(Peak)]) == [Label(Peak)];
    assert !Text.Less(Label(OffPeak), Label(Peak));
    assert Text.Insert(Label(OffPeak), [Label(Peak)]) == [Label(Peak), Label(OffPeak)];
    assert [Label(Peak), Label(OffPeak)][..1] == [Label(Peak)];
    var labels := [Label(Peak), Label(OffPeak)];
    assert PeriodOf(SessionA) == Label(Peak) && PeriodOf(SessionB) == Label(OffPeak);
    assert Label(Peak) != Label(OffPeak);
    assert SumWhere([SessionB], PeriodOf, Label(Peak)) == 0;
    assert SumWhere([SessionB], PeriodOf, Label(OffPeak)) == 10;
    assert SumWhere(rows, PeriodOf, Label(Peak)) == 10;
    assert SumWhere(rows, PeriodOf, Label(OffPeak)) == 10;
    assert GroupBy(rows, PeriodOf, labels) == [Entry(Label(Peak), 10), Entry(Label(OffPeak), 10)];
  }

  /** Searching "xyz" among the tags user1, XYZ99 and abc keeps only XYZ99. */
  lemma SearchIgnoresCase()
    ensures var rows := [
        Row(3, Some("A"), 1, Some("user1"), Stamp(0, 9), 0, 1, 1),
        Row(2, Some("A"), 2, Some("XYZ99"), Stamp(0, 9), 0, 1, 1),
        Row(1, Some("A"), 3, Some("abc"), Stamp(0, 9), 0, 1, 1)];
      TagFilter(rows, "xyz") == [rows[1]]
  {
    var rows := [
      Row(3, Some("A"), 1, Some("user1"), Stamp(0, 9), 0, 1, 1),
      Row(2, Some("A"), 2, Some("XYZ99"), Stamp(0, 9), 0, 1, 1),
      Row(1, Some("A"), 3, Some("abc"), Stamp(0, 9), 0, 1, 1)];
    var matches := TagMatches("xyz");
    assert Text.Lower("XYZ99") == "xyz99";
    assert Text.Lower("xyz") == "xyz";
    assert Text.OccursAt("xyz", "xyz99", 0);
    assert matches(rows[1]);
    assert Text.Lower("user1") == "user1";
    forall i ensures !Text.OccursAt("xyz", "user1", i) {
      if 0 <= i <= 2 { assert "user1"[i..i + 3][0] != 'x'; }
    }
    assert !matches(rows[0]);
    assert Text.Lower("abc") == "abc";
    forall i ensures !Text.OccursAt("xyz", "abc", i) {
      if i == 0 { assert "abc"[0..3][0] != 'x'; }
    }
    assert !matches(rows[2]);
    assert rows[1..][1..] == [rows[2]];
    assert Sequences.Keep([rows[2]], matches) == [];
    assert Sequences.Keep(rows[1..], matches) == [rows[1]];
  }
}
