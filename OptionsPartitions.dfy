/** The monthly partitions of the Nifty_options table: `Nifty_options_{YYYY}_{MM}`
    over [first of the month, first of the next month) with a date and a symbol
    index, and the loop that creates one partition per month from start through end,
    both given as `%Y-%m`. */
module OptionsPartitions {
  import opened Wrappers
  import opened Text
  import opened Calendar
  import opened Partitions
  import opened DateParse

  /** `create_month_partition(year, month)`. */
  function OptionsPartition(y: nat, m: nat): Partition
    requires y >= 1 && 1 <= m <= 12
  {
    var name := MonthlyName("Nifty_options", y, m);
    Partition(name, "Nifty_options", FirstOfMonth(y, m), NextMonthStart(y, m),
      [name + "_date_idx", name + "_symbol_idx"])
  }

  /** A partition holds exactly the days of its month and no two months share a name. */
  lemma OptionsPartitionExact(y: nat, m: nat, z: nat, n: nat, d: Date)
    requires y >= 1 && 1 <= m <= 12 && z >= 1 && 1 <= n <= 12 && ValidDate(d)
    ensures Holds(OptionsPartition(y, m), d) <==> d.year == y && d.month == m
    ensures OptionsPartition(y, m).name == OptionsPartition(z, n).name <==> y == z && m == n
  {
    MonthBoundsExact(y, m, d);
    if OptionsPartition(y, m).name == OptionsPartition(z, n).name {
      MonthlyNameInjective("Nifty_options", y, m, z, n);
    }
  }

  /** The partitions for the months from start's month through end's month. */
  function MonthPartitions(start: Date, end: Date): (r: seq<Partition>)
    requires ValidDate(start)
    ensures |r| == MonthSpan(start, end)
  {
    PartitionsOf(MonthsThrough(start, end))
  }

  function PartitionsOf(months: seq<Date>): (r: seq<Partition>)
    requires AllValidDates(months)
    ensures |r| == |months|
  {
    seq(|months|, i requires 0 <= i < |months| => OptionsPartition(months[i].year, months[i].month))
  }

  lemma PartitionsSnoc(months: seq<Date>, d: Date)
    requires AllValidDates(months) && ValidDate(d)
    ensures PartitionsOf(months + [d]) == PartitionsOf(months) + [OptionsPartition(d.year, d.month)]
  {
    assert AllValidDates(months + [d]);
  }

  /** A month's partition is created iff start <= its first day <= end: both ends
      are included. */
  lemma MonthPartitionsExact(start: Date, end: Date, y: nat, m: nat)
    requires ValidDate(start) && start.day == 1 && ValidDate(end) && end.day == 1
    requires y >= 1 && 1 <= m <= 12
    ensures OptionsPartition(y, m) in MonthPartitions(start, end) <==>
      NotAfter(start, Date(y, m, 1)) && NotAfter(Date(y, m, 1), end)
  {
    var months := MonthsThrough(start, end);
    var r := MonthPartitions(start, end);
    var d := Date(y, m, 1);
    MonthsThroughExact(start, end, d);
    FirstOfMonthNotAfter(start, d);
    FirstOfMonthNotAfter(d, end);
    if OptionsPartition(y, m) in r {
      var i :| 0 <= i < |r| && r[i] == OptionsPartition(y, m);
      assert r[i].from == months[i];
    }
    if NotAfter(start, d) && NotAfter(d, end) {
      var i :| 0 <= i < |months| && months[i] == d;
      assert r[i] == OptionsPartition(y, m);
    }
  }

  /** The loop's step to the first of the next month, December to January. */
  method AdvanceMonth(cur: Date) returns (next: Date)
    requires cur.year >= 1 && 1 <= cur.month <= 12
    ensures next == NextMonthStart(cur.year, cur.month)
  {
    if cur.month == 12 {
      next := Date(cur.year + 1, 1, 1);
    } else {
      next := Date(cur.year, cur.month + 1, 1);
    }
  }

  /** The `while cur <= end_dt` loop: one partition per month from start through end,
      advancing December to January of the next year. */
  method CreateMonths(start: Date, end: Date) returns (created: seq<Partition>)
    requires ValidDate(start) && start.day == 1 && ValidDate(end)
    ensures created == MonthPartitions(start, end)
  {
    var cur := start;
    ghost var count: nat := 0;
    ghost var visited: seq<Date> := [];
    created := [];
    while NotAfter(cur, end)
      invariant ValidDate(cur) && cur.day == 1
      invariant count == MonthIndex(cur) - MonthIndex(start)
      invariant count == 0 || MonthIndex(cur) <= MonthIndex(end) + 1
      invariant visited == MonthsFrom(start, count)
      invariant created == PartitionsOf(visited)
      decreases MonthIndex(end) + 1 - MonthIndex(cur)
    {
      FirstOfMonthNotAfter(cur, end);
      MonthVisit(start, cur, count);
      PartitionsSnoc(visited, cur);
      created := created + [OptionsPartition(cur.year, cur.month)];
      visited := visited + [cur];
      cur := AdvanceMonth(cur);
      count := count + 1;
    }
    FirstOfMonthNotAfter(cur, end);
    assert count == MonthSpan(start, end);
    assert Date(start.year, start.month, 1) == start;
  }

  /** `main`: parse both arguments, then create the partitions; a bad argument stops
      the script before any partition is created. */
  method CreateFromArgs(startArg: string, endArg: string) returns (r: Result<seq<Partition>, string>)
    ensures r.Err? <==> ParseYm(startArg).Err? || ParseYm(endArg).Err?
    ensures r.Ok? ==> r.value == MonthPartitions(ParseYm(startArg).value, ParseYm(endArg).value)
  {
    var s := ParseYm(startArg);
    if s.Err? {
      return Err(s.error);
    }
    var e := ParseYm(endArg);
    if e.Err? {
      return Err(e.error);
    }
    var created := CreateMonths(s.value, e.value);
    return Ok(created);
  }
}
