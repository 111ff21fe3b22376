/** The monthly partitions of the three Heikin-Ashi tables (ha_big, ha_small, ha_1m):
    the month iterator, the name and bounds of one partition and its two indexes,
    and the nested loop that creates one partition per table per month. */
module HaPartitions {
  import opened Text
  import opened Calendar
  import opened Partitions

  /** The parent tables, in the order they are processed. */
  const Parents: seq<string> := ["ha_big", "ha_small", "ha_1m"]

  /** The fixed range the script covers: January 2018 through December 2025. */
  const RangeStart: Date := Date(2018, 1, 1)
  const RangeEnd: Date := Date(2025, 12, 1)

  /** `month_range(start_date, end_date)`: from the first of start's month, one month
      at a time, while the date is not after end. */
  method MonthRange(start: Date, end: Date) returns (months: seq<Date>)
    requires ValidDate(start) && ValidDate(end)
    ensures months == MonthsThrough(start, end)
  {
    var first := Date(start.year, start.month, 1);
    var cur := first;
    months := [];
    while NotAfter(cur, end)
      invariant ValidDate(cur) && cur.day == 1
      invariant MonthIndex(first) <= MonthIndex(cur)
      invariant MonthIndex(cur) == MonthIndex(first) || MonthIndex(cur) <= MonthIndex(end) + 1
      invariant months == MonthsFrom(first, MonthIndex(cur) - MonthIndex(first))
      decreases MonthIndex(end) + 1 - MonthIndex(cur)
    {
      FirstOfMonthNotAfter(cur, end);
      MonthVisit(first, cur, MonthIndex(cur) - MonthIndex(first));
      months := months + [cur];
      cur := NextMonthStart(cur.year, cur.month);
    }
    FirstOfMonthNotAfter(cur, end);
  }

  /** `create_partition(parent, year, month)`: `{parent}_{YYYY}_{MM}` over
      [first of the month, first of the next month), indexed on (trade_date,
      candle_time) and on candle_time. */
  function HaPartition(parent: string, y: nat, m: nat): Partition
    requires y >= 1 && 1 <= m <= 12
  {
    var name := MonthlyName(parent, y, m);
    Partition(name, parent, FirstOfMonth(y, m), NextMonthStart(y, m),
      ["idx_" + name + "_trade_time", "idx_" + name + "_candle_time"])
  }

  /** A partition holds exactly the days of its month. */
  lemma HaPartitionHolds(parent: string, y: nat, m: nat, d: Date)
    requires y >= 1 && 1 <= m <= 12 && ValidDate(d)
    ensures Holds(HaPartition(parent, y, m), d) <==> d.year == y && d.month == m
  {
    MonthBoundsExact(y, m, d);
  }

  /** Partition names never clash: across the three tables and across months. */
  lemma HaPartitionNamesDistinct(p1: string, y1: nat, m1: nat, p2: string, y2: nat, m2: nat)
    requires p1 in Parents && p2 in Parents
    requires y1 >= 1 && 1 <= m1 <= 12 && y2 >= 1 && 1 <= m2 <= 12
    requires HaPartition(p1, y1, m1).name == HaPartition(p2, y2, m2).name
    ensures p1 == p2 && y1 == y2 && m1 == m2
  {
    var a := MonthlyName(p1, y1, m1);
    assert a[3] == p1[3];
    assert MonthlyName(p2, y2, m2)[3] == p2[3];
    MonthlyNameInjective(p1, y1, m1, y2, m2);
  }

  /** The partitions of one parent, one per month, in month order. */
  function ForMonths(parent: string, months: seq<Date>): (r: seq<Partition>)
    requires AllValidDates(months)
    ensures |r| == |months|
  {
    seq(|months|, i requires 0 <= i < |months| => HaPartition(parent, months[i].year, months[i].month))
  }

  /** The partitions created by the nested loop: every month of the first parent,
      then every month of the second, and so on. */
  function Planned(parents: seq<string>, months: seq<Date>): (r: seq<Partition>)
    requires AllValidDates(months)
    ensures |r| == |parents| * |months|
  {
    if parents == [] then []
    else Planned(parents[..|parents| - 1], months) + ForMonths(parents[|parents| - 1], months)
  }

  /** The inner loop: `for m in month_range(start, end): create_partition(p, ...)`. */
  method CreateForParent(parent: string, start: Date, end: Date) returns (created: seq<Partition>)
    requires ValidDate(start) && ValidDate(end)
    ensures AllValidDates(MonthsThrough(start, end))
    ensures created == ForMonths(parent, MonthsThrough(start, end))
  {
    var months := MonthRange(start, end);
    MonthsThroughValid(start, end);
    created := [];
    for j := 0 to |months|
      invariant created == ForMonths(parent, months[..j])
    {
      created := created + [HaPartition(parent, months[j].year, months[j].month)];
    }
    assert months[..|months|] == months;
  }

  /** The script's main loop over the parent tables. */
  method CreateAll(parents: seq<string>, start: Date, end: Date) returns (created: seq<Partition>)
    requires ValidDate(start) && ValidDate(end)
    ensures AllValidDates(MonthsThrough(start, end))
    ensures created == Planned(parents, MonthsThrough(start, end))
  {
    MonthsThroughValid(start, end);
    var months := MonthsThrough(start, end);
    created := [];
    for k := 0 to |parents|
      invariant created == Planned(parents[..k], months)
    {
      var more := CreateForParent(parents[k], start, end);
      assert parents[..k + 1][..k] == parents[..k];
      created := created + more;
    }
    assert parents[..|parents|] == parents;
  }

  /** q is the partition of one of the parents for one of the months. */
  predicate OfSome(parents: seq<string>, months: seq<Date>, q: Partition)
    requires AllValidDates(months)
  {
    exists i, j :: 0 <= i < |parents| && 0 <= j < |months| &&
      q == HaPartition(parents[i], months[j].year, months[j].month)
  }

  /** A partition is among one parent's iff it is that parent's for one of the months. */
  lemma ForMonthsMember(parent: string, months: seq<Date>, q: Partition)
    requires AllValidDates(months)
    ensures q in ForMonths(parent, months) <==>
      exists j :: 0 <= j < |months| && q == HaPartition(parent, months[j].year, months[j].month)
  {
    var f := ForMonths(parent, months);
    if q in f {
      var j :| 0 <= j < |f| && f[j] == q;
    }
    if exists j :: 0 <= j < |months| && q == HaPartition(parent, months[j].year, months[j].month) {
      var j :| 0 <= j < |months| && q == HaPartition(parent, months[j].year, months[j].month);
      assert f[j] == q;
    }
  }

  /** A partition is planned iff it is the partition of one of the parents for one of
      the months. */
  lemma PlannedExact(parents: seq<string>, months: seq<Date>, q: Partition)
    requires AllValidDates(months)
    ensures q in Planned(parents, months) <==> OfSome(parents, months, q)
  {
    PlannedRows(parents, months, q);
    OfSomeRows(parents, months, q);
  }

  /** q is among the partitions of one of the parents. */
  predicate InRows(parents: seq<string>, months: seq<Date>, q: Partition)
    requires AllValidDates(months)
  {
    exists i :: 0 <= i < |parents| && q in ForMonths(parents[i], months)
  }

  lemma OfSomeRows(parents: seq<string>, months: seq<Date>, q: Partition)
    requires AllValidDates(months)
    ensures OfSome(parents, months, q) <==> InRows(parents, months, q)
  {
    if OfSome(parents, months, q) {
      var i, j :| 0 <= i < |parents| && 0 <= j < |months| &&
        q == HaPartition(parents[i], months[j].year, months[j].month);
      ForMonthsMember(parents[i], months, q);
    }
    if InRows(parents, months, q) {
      var i :| 0 <= i < |parents| && q in ForMonths(parents[i], months);
      ForMonthsMember(parents[i], months, q);
    }
  }

  lemma {:induction false} PlannedRows(parents: seq<string>, months: seq<Date>, q: Partition)
    requires AllValidDates(months)
    ensures q in Planned(parents, months) <==> InRows(parents, months, q)
  {
    if parents != [] {
      var init := parents[..|parents| - 1];
      var last := parents[|parents| - 1];
      PlannedRows(init, months, q);
      assert Planned(parents, months) == Planned(init, months) + ForMonths(last, months);
      if InRows(parents, months, q) {
        var i :| 0 <= i < |parents| && q in ForMonths(parents[i], months);
        if i < |parents| - 1 {
          assert parents[i] == init[i];
        }
      }
      if InRows(init, months, q) {
        var i :| 0 <= i < |init| && q in ForMonths(init[i], months);
        assert parents[i] == init[i];
      }
    }
  }

  /** The script's fixed range is 96 months, so 288 partitions are created. */
  lemma ScriptPlanSize()
    ensures |Planned(Parents, MonthsThrough(RangeStart, RangeEnd))| == 288
  {
    MonthsThroughValid(RangeStart, RangeEnd);
    assert |MonthsThrough(RangeStart, RangeEnd)| == 96;
  }

  /** A table's partition for a month is created iff the month lies in 2018 through 2025. */
  lemma ScriptPlanCovers(parent: string, y: nat, m: nat)
    requires parent in Parents && y >= 1 && 1 <= m <= 12
    ensures HaPartition(parent, y, m) in Planned(Parents, MonthsThrough(RangeStart, RangeEnd))
      <==> 2018 <= y <= 2025
  {
    var months := MonthsThrough(RangeStart, RangeEnd);
    MonthsThroughValid(RangeStart, RangeEnd);
    var q := HaPartition(parent, y, m);
    var d := Date(y, m, 1);
    MonthsThroughExact(RangeStart, RangeEnd, d);
    PlannedRows(Parents, months, q);
    if InRows(Parents, months, q) {
      var i :| 0 <= i < |Parents| && q in ForMonths(Parents[i], months);
      InForMonths(Parents[i], months, parent, y, m);
    }
    if 2018 <= y <= 2025 {
      var i :| 0 <= i < |Parents| && Parents[i] == parent;
      InForMonths(Parents[i], months, parent, y, m);
    }
  }

  /** A table's partition for a month is among `other`'s partitions for the listed
      first-of-month dates iff the tables agree and the month is listed. */
  lemma InForMonths(other: string, months: seq<Date>, parent: string, y: nat, m: nat)
    requires AllValidDates(months) && forall j :: 0 <= j < |months| ==> months[j].day == 1
    requires y >= 1 && 1 <= m <= 12
    ensures HaPartition(parent, y, m) in ForMonths(other, months) <==> other == parent && Date(y, m, 1) in months
  {
    var q := HaPartition(parent, y, m);
    ForMonthsMember(other, months, q);
    if q in ForMonths(other, months) {
      var j :| 0 <= j < |months| && q == HaPartition(other, months[j].year, months[j].month);
      assert q.from == months[j];
    }
    if other == parent && Date(y, m, 1) in months {
      var j :| 0 <= j < |months| && months[j] == Date(y, m, 1);
      assert q == HaPartition(other, months[j].year, months[j].month);
    }
  }
}
