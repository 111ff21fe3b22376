/** Names, half-open bounds and month sequences shared by the partition scripts and
    the bulk loaders: yearly partitions named `{prefix}{YYYY}`, monthly partitions
    named `{prefix}_{YYYY}_{MM}`, and the run of first-of-month dates a month loop
    visits. */
module Partitions {
  import opened Text
  import opened Calendar

  /** One `CREATE TABLE IF NOT EXISTS name PARTITION OF parent FOR VALUES FROM (from)
      TO (to)` together with the names of the indexes created on it. */
  datatype Partition = Partition(name: string, parent: string, from: Date, to: Date, indexes: seq<string>)

  /** A partition holds the day d iff from <= d < to. */
  predicate Holds(p: Partition, d: Date) {
    NotAfter(p.from, d) && Before(d, p.to)
  }

  // ---- names ----

  /** `f'{prefix}{year}'`. */
  function YearlyName(prefix: string, y: nat): string {
    prefix + NatToString(y)
  }

  /** `f'{prefix}_{year}_{month:02d}'`. */
  function MonthlyName(prefix: string, y: nat, m: nat): string {
    prefix + "_" + NatToString(y) + "_" + Pad2(m)
  }

  /** Different years give different yearly names. */
  lemma YearlyNameInjective(prefix: string, a: nat, b: nat)
    requires YearlyName(prefix, a) == YearlyName(prefix, b)
    ensures a == b
  {
    assert YearlyName(prefix, a)[|prefix|..] == NatToString(a);
    assert YearlyName(prefix, b)[|prefix|..] == NatToString(b);
    NatToStringInjective(a, b);
  }

  /** Different months give different monthly names: the two-digit month is the
      last two characters and the year sits between the two underscores. */
  lemma MonthlyNameInjective(prefix: string, y1: nat, m1: nat, y2: nat, m2: nat)
    requires m1 < 100 && m2 < 100
    requires MonthlyName(prefix, y1, m1) == MonthlyName(prefix, y2, m2)
    ensures y1 == y2 && m1 == m2
  {
    var a := MonthlyName(prefix, y1, m1);
    var b := MonthlyName(prefix, y2, m2);
    var n := |a|;
    assert a[n - 2..] == Pad2(m1);
    assert b[n - 2..] == Pad2(m2);
    ParsePad2(m1);
    ParsePad2(m2);
    var p := |prefix| + 1;
    assert a[p..n - 3] == NatToString(y1);
    assert b[p..n - 3] == NatToString(y2);
    NatToStringInjective(y1, y2);
  }

  // ---- month sequences ----

  /** The first of the month with the given month index. */
  function MonthOfIndex(i: int): (d: Date)
    ensures d.day == 1 && 1 <= d.month <= 12 && MonthIndex(d) == i
  {
    Date(i / 12, i % 12 + 1, 1)
  }

  /** A first-of-month date is determined by its month index. */
  lemma MonthOfIndexOf(d: Date)
    requires d.day == 1 && 1 <= d.month <= 12
    ensures MonthOfIndex(MonthIndex(d)) == d
  {
    var i := MonthIndex(d);
    assert i == d.year * 12 + (d.month - 1) && 0 <= d.month - 1 < 12;
    assert i / 12 == d.year && i % 12 == d.month - 1;
  }

  /** `count` months from `first` are the first `count - 1` months and one more. */
  lemma {:induction false} MonthsFromSnoc(first: Date, count: nat)
    requires ValidDate(first) && first.day == 1
    ensures MonthsFrom(first, count + 1) == MonthsFrom(first, count) + [MonthOfIndex(MonthIndex(first) + count)]
    decreases count
  {
    var next := NextMonthStart(first.year, first.month);
    MonthIndexNext(first.year, first.month);
    if count == 0 {
      MonthOfIndexOf(first);
    } else {
      MonthsFromSnoc(next, count - 1);
      assert MonthIndex(next) + (count - 1) == MonthIndex(first) + count;
      assert MonthsFrom(first, count + 1) == [first] + MonthsFrom(next, count);
      assert MonthsFrom(first, count) == [first] + MonthsFrom(next, count - 1);
    }
  }

  /** One more month visited: `cur`, `count` months after `first`, ends the list,
      and the next month's index is one further on. */
  lemma MonthVisit(first: Date, cur: Date, count: nat)
    requires ValidDate(first) && first.day == 1 && ValidDate(cur) && cur.day == 1
    requires count == MonthIndex(cur) - MonthIndex(first)
    ensures MonthsFrom(first, count + 1) == MonthsFrom(first, count) + [cur]
    ensures MonthIndex(NextMonthStart(cur.year, cur.month)) == MonthIndex(first) + count + 1
  {
    MonthsFromSnoc(first, count);
    MonthOfIndexOf(cur);
    MonthIndexNext(cur.year, cur.month);
  }

  /** The number of months from the month of d through the month of e (none when
      e's month is earlier). */
  function MonthSpan(d: Date, e: Date): nat {
    if MonthIndex(e) < MonthIndex(d) then 0 else MonthIndex(e) - MonthIndex(d) + 1
  }

  /** Every date of the sequence exists. */
  predicate AllValidDates(months: seq<Date>) {
    forall i :: 0 <= i < |months| ==> ValidDate(months[i])
  }

  /** The first-of-month dates from the month of `first` through the month of `last`. */
  function MonthsThrough(first: Date, last: Date): (r: seq<Date>)
    requires ValidDate(first)
  {
    MonthsFrom(Date(first.year, first.month, 1), MonthSpan(first, last))
  }

  /** A date is visited iff it is the first of a month between the month of `first`
      and the month of `last`, both included. */
  lemma MonthsThroughExact(first: Date, last: Date, d: Date)
    requires ValidDate(first)
    ensures d in MonthsThrough(first, last) <==>
      ValidDate(d) && d.day == 1 && MonthIndex(first) <= MonthIndex(d) <= MonthIndex(last)
  {
    var f := Date(first.year, first.month, 1);
    var r := MonthsThrough(first, last);
    if d in r {
      var k :| 0 <= k < |r| && r[k] == d;
      MonthsFromAt(f, |r|, k);
    }
    if ValidDate(d) && d.day == 1 && MonthIndex(first) <= MonthIndex(d) <= MonthIndex(last) {
      var k := MonthIndex(d) - MonthIndex(first);
      MonthsFromAt(f, |r|, k);
      MonthOfIndexOf(d);
      MonthOfIndexOf(r[k]);
    }
  }

  /** Consecutive visited dates are one month apart, so the run is strictly
      increasing; it starts at the first of `first`'s month and, when not empty,
      ends at the first of `last`'s month. */
  lemma MonthsThroughSteps(first: Date, last: Date)
    requires ValidDate(first) && ValidDate(last)
    ensures var r := MonthsThrough(first, last);
      && (forall i :: 0 <= i < |r| ==> ValidDate(r[i]) && r[i].day == 1)
      && (forall i :: 0 <= i < |r| - 1 ==> r[i + 1] == NextMonthStart(r[i].year, r[i].month))
      && (forall i, j :: 0 <= i < j < |r| ==> Before(r[i], r[j]))
      && (r != [] ==> r[0] == Date(first.year, first.month, 1) && r[|r| - 1] == Date(last.year, last.month, 1))
  {
    MonthsThroughValid(first, last);
    MonthsThroughNext(first, last);
    MonthsThroughIncreasing(first, last);
    MonthsThroughEnds(first, last);
  }

  lemma MonthsThroughValid(first: Date, last: Date)
    requires ValidDate(first)
    ensures AllValidDates(MonthsThrough(first, last))
    ensures forall i :: 0 <= i < |MonthsThrough(first, last)| ==> MonthsThrough(first, last)[i].day == 1
  {
  }

  lemma MonthsThroughNext(first: Date, last: Date)
    requires ValidDate(first)
    ensures forall i :: 0 <= i < |MonthsThrough(first, last)| - 1 ==>
      MonthsThrough(first, last)[i + 1] == NextMonthStart(MonthsThrough(first, last)[i].year, MonthsThrough(first, last)[i].month)
  {
    var f := Date(first.year, first.month, 1);
    var r := MonthsThrough(first, last);
    forall i | 0 <= i < |r| - 1 ensures r[i + 1] == NextMonthStart(r[i].year, r[i].month) {
      MonthsFromAt(f, |r|, i);
      MonthsFromAt(f, |r|, i + 1);
      MonthIndexNext(r[i].year, r[i].month);
      MonthOfIndexOf(r[i + 1]);
      MonthOfIndexOf(NextMonthStart(r[i].year, r[i].month));
    }
  }

  lemma MonthsThroughIncreasing(first: Date, last: Date)
    requires ValidDate(first)
    ensures forall i, j :: 0 <= i < j < |MonthsThrough(first, last)| ==> Before(MonthsThrough(first, last)[i], MonthsThrough(first, last)[j])
  {
    var f := Date(first.year, first.month, 1);
    var r := MonthsThrough(first, last);
    forall i, j | 0 <= i < j < |r| ensures Before(r[i], r[j]) {
      MonthsFromAt(f, |r|, i);
      MonthsFromAt(f, |r|, j);
      FirstOfMonthOrder(r[i], r[j]);
    }
  }

  lemma MonthsThroughEnds(first: Date, last: Date)
    requires ValidDate(first) && ValidDate(last)
    ensures MonthsThrough(first, last) != [] ==>
      MonthsThrough(first, last)[0] == Date(first.year, first.month, 1)
      && MonthsThrough(first, last)[|MonthsThrough(first, last)| - 1] == Date(last.year, last.month, 1)
  {
    var f := Date(first.year, first.month, 1);
    var r := MonthsThrough(first, last);
    if r != [] {
      MonthsFromAt(f, |r|, 0);
      MonthsFromAt(f, |r|, |r| - 1);
      MonthOfIndexOf(r[0]);
      MonthOfIndexOf(f);
      MonthOfIndexOf(r[|r| - 1]);
      MonthOfIndexOf(Date(last.year, last.month, 1));
    }
  }
}
