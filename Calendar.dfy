/** Proleptic Gregorian calendar dates, as Python's `datetime.date` has them:
    the successor day (`d + timedelta(days=1)`), the day ordinal
    (`date.toordinal()`), first-of-month dates and the month after a month
    (December wraps to January of the next year). */
module Calendar {

  datatype Date = Date(year: int, month: int, day: int)

  predicate IsLeapYear(y: int) {
    y % 4 == 0 && (y % 100 != 0 || y % 400 == 0)
  }

  function DaysInMonth(y: int, m: int): (n: int)
    requires 1 <= m <= 12
    ensures 28 <= n <= 31
  {
    if m == 2 then (if IsLeapYear(y) then 29 else 28)
    else if m == 4 || m == 6 || m == 9 || m == 11 then 30
    else 31
  }

  function YearLength(y: int): int {
    if IsLeapYear(y) then 366 else 365
  }

  /** Python dates start at year 1; a valid date names an existing day. */
  predicate ValidDate(d: Date) {
    1 <= d.year && 1 <= d.month <= 12 && 1 <= d.day <= DaysInMonth(d.year, d.month)
  }

  /** A day that exists, as every `datetime.date` value does. */
  type Day = d: Date | ValidDate(d) witness Date(1, 1, 1)

  /** `a < b` on dates. */
  predicate Before(a: Date, b: Date) {
    a.year < b.year
    || (a.year == b.year && a.month < b.month)
    || (a.year == b.year && a.month == b.month && a.day < b.day)
  }

  /** `a <= b` on dates. */
  predicate NotAfter(a: Date, b: Date) {
    a == b || Before(a, b)
  }

  /** `d + timedelta(days=1)`. */
  function NextDay(d: Date): (r: Date)
    requires ValidDate(d)
    ensures ValidDate(r) && Before(d, r)
  {
    if d.day < DaysInMonth(d.year, d.month) then Date(d.year, d.month, d.day + 1)
    else if d.month < 12 then Date(d.year, d.month + 1, 1)
    else Date(d.year + 1, 1, 1)
  }

  /** `d - timedelta(days=1)`; 0001-01-01 has no predecessor. */
  function PrevDay(d: Date): (r: Date)
    requires ValidDate(d) && d != Date(1, 1, 1)
    ensures ValidDate(r) && Before(r, d)
  {
    if d.day > 1 then Date(d.year, d.month, d.day - 1)
    else if d.month > 1 then Date(d.year, d.month - 1, DaysInMonth(d.year, d.month - 1))
    else Date(d.year - 1, 12, 31)
  }

  /** Days of the year before the first of month m (m = 13 gives the whole year). */
  function MonthStart(y: int, m: int): int
    requires 1 <= m <= 13
  {
    var table := [0, 31, 59, 90, 120, 151, 181, 212, 243, 273, 304, 334, 365];
    table[m - 1] + (if IsLeapYear(y) && m > 2 then 1 else 0)
  }

  lemma MonthStartStep(y: int, m: int)
    requires 1 <= m <= 12
    ensures MonthStart(y, m + 1) == MonthStart(y, m) + DaysInMonth(y, m)
    ensures MonthStart(y, 13) == YearLength(y)
  {
  }

  /** Days in the years before year y. */
  function YearStart(y: int): int
    requires y >= 1
  {
    if y == 1 then 0 else YearStart(y - 1) + YearLength(y - 1)
  }

  /** `d.toordinal()`: 0001-01-01 is day 1. */
  function Ordinal(d: Date): int
    requires ValidDate(d)
  {
    YearStart(d.year) + MonthStart(d.year, d.month) + d.day
  }

  lemma {:induction false} YearStartGrows(a: int, b: int)
    requires 1 <= a < b
    ensures YearStart(a) + YearLength(a) <= YearStart(b)
    decreases b - a
  {
    if a + 1 < b {
      YearStartGrows(a + 1, b);
      YearStartGrows(a, a + 1);
    }
  }

  /** The successor day is the next ordinal. */
  lemma OrdinalNextDay(d: Date)
    requires ValidDate(d)
    ensures Ordinal(NextDay(d)) == Ordinal(d) + 1
  {
    MonthStartStep(d.year, d.month);
  }

  /** The ordinal orders dates as `<` does, so it is also one-to-one. */
  lemma OrdinalOrder(a: Date, b: Date)
    requires ValidDate(a) && ValidDate(b)
    ensures Before(a, b) <==> Ordinal(a) < Ordinal(b)
    ensures a == b <==> Ordinal(a) == Ordinal(b)
  {
    forall x: Date, y: Date | ValidDate(x) && ValidDate(y) && Before(x, y)
      ensures Ordinal(x) < Ordinal(y)
    {
      OrdinalBefore(x, y);
    }
  }

  lemma OrdinalBefore(a: Date, b: Date)
    requires ValidDate(a) && ValidDate(b) && Before(a, b)
    ensures Ordinal(a) < Ordinal(b)
  {
    MonthStartStep(a.year, a.month);
    if a.year < b.year {
      YearStartGrows(a.year, b.year);
      assert MonthStart(a.year, a.month + 1) <= MonthStart(a.year, 13);
    } else if a.month < b.month {
      assert MonthStart(a.year, a.month + 1) <= MonthStart(a.year, b.month);
    }
  }

  /** No date lies strictly between a day and its successor. */
  lemma NextDayIsSuccessor(d: Date, x: Date)
    requires ValidDate(d) && ValidDate(x)
    ensures Before(d, x) <==> NotAfter(NextDay(d), x)
  {
    OrdinalNextDay(d);
    OrdinalOrder(d, x);
    OrdinalOrder(NextDay(d), x);
  }

  /** Stepping back a day and forward again returns the same date. */
  lemma NextPrevDay(d: Date)
    requires ValidDate(d) && d != Date(1, 1, 1)
    ensures NextDay(PrevDay(d)) == d
  {
  }

  /** `d - timedelta(days=n)`. */
  function DaysBefore(d: Date, n: nat): (r: Date)
    requires ValidDate(d) && n < Ordinal(d)
    ensures ValidDate(r)
    decreases n
  {
    if n == 0 then d
    else
      assert d != Date(1, 1, 1);
      OrdinalNextDay(PrevDay(d));
      DaysBefore(PrevDay(d), n - 1)
  }

  /** Going back n days lowers the ordinal by exactly n. */
  lemma {:induction false} OrdinalDaysBefore(d: Date, n: nat)
    requires ValidDate(d) && n < Ordinal(d)
    ensures Ordinal(DaysBefore(d, n)) == Ordinal(d) - n
    decreases n
  {
    if n > 0 {
      assert d != Date(1, 1, 1);
      NextPrevDay(d);
      OrdinalNextDay(PrevDay(d));
      OrdinalDaysBefore(PrevDay(d), n - 1);
    }
  }

  // ---- months ----

  /** The first day of month m of year y, `date(y, m, 1)`. */
  function FirstOfMonth(y: int, m: int): (r: Date)
    requires y >= 1 && 1 <= m <= 12
    ensures ValidDate(r)
  {
    Date(y, m, 1)
  }

  /** The first day of the month after (y, m): December wraps to January of y + 1. */
  function NextMonthStart(y: int, m: int): (r: Date)
    requires y >= 1 && 1 <= m <= 12
    ensures ValidDate(r) && r.day == 1
  {
    if m == 12 then Date(y + 1, 1, 1) else Date(y, m + 1, 1)
  }

  /** Months counted from year 0: one step per calendar month. */
  function MonthIndex(d: Date): int {
    d.year * 12 + d.month - 1
  }

  lemma MonthIndexNext(y: int, m: int)
    requires y >= 1 && 1 <= m <= 12
    ensures MonthIndex(NextMonthStart(y, m)) == MonthIndex(Date(y, m, 1)) + 1
  {
  }

  /** Month partitions are exact: a valid date lies in the half-open range
      [first of (y, m), first of the next month) iff it falls in year y, month m. */
  lemma MonthBoundsExact(y: int, m: int, d: Date)
    requires y >= 1 && 1 <= m <= 12 && ValidDate(d)
    ensures (NotAfter(FirstOfMonth(y, m), d) && Before(d, NextMonthStart(y, m)))
            <==> (d.year == y && d.month == m)
  {
  }

  /** Year partitions are exact: [y-01-01, (y+1)-01-01) holds exactly the dates of year y. */
  lemma YearBoundsExact(y: int, d: Date)
    requires y >= 1 && ValidDate(d)
    ensures (NotAfter(Date(y, 1, 1), d) && Before(d, Date(y + 1, 1, 1))) <==> d.year == y
  {
  }

  /** `count` consecutive first-of-month dates starting with `first`. */
  function MonthsFrom(first: Date, count: nat): (r: seq<Date>)
    requires ValidDate(first) && first.day == 1
    ensures |r| == count
    ensures forall i :: 0 <= i < |r| ==> ValidDate(r[i]) && r[i].day == 1
    decreases count
  {
    if count == 0 then []
    else [first] + MonthsFrom(NextMonthStart(first.year, first.month), count - 1)
  }

  /** Element k of MonthsFrom is k months after the first, and is a first of month. */
  lemma {:induction false} MonthsFromAt(first: Date, count: nat, k: nat)
    requires ValidDate(first) && first.day == 1 && k < count
    ensures ValidDate(MonthsFrom(first, count)[k]) && MonthsFrom(first, count)[k].day == 1
    ensures MonthIndex(MonthsFrom(first, count)[k]) == MonthIndex(first) + k
    decreases count
  {
    if k > 0 {
      var next := NextMonthStart(first.year, first.month);
      MonthIndexNext(first.year, first.month);
      MonthsFromAt(next, count - 1, k - 1);
    }
  }

  /** On first-of-month dates, `<` is `<` on the month index. */
  lemma FirstOfMonthOrder(a: Date, b: Date)
    requires a.day == 1 && b.day == 1 && 1 <= a.month <= 12 && 1 <= b.month <= 12
    ensures Before(a, b) <==> MonthIndex(a) < MonthIndex(b)
    ensures a == b <==> MonthIndex(a) == MonthIndex(b)
  {
  }

  /** A valid date is not before the first of a month iff its month index is not smaller. */
  lemma FirstOfMonthNotAfter(f: Date, d: Date)
    requires f.day == 1 && 1 <= f.month <= 12 && ValidDate(d)
    ensures NotAfter(f, d) <==> MonthIndex(f) <= MonthIndex(d)
  {
  }

  // ---- day ranges ----

  /** The days d with start <= d < end, in calendar order; empty unless start is before end. */
  function DaysBetween(start: Date, end: Date): (r: seq<Date>)
    requires ValidDate(start) && ValidDate(end)
    decreases Ordinal(end) - Ordinal(start)
  {
    if !Before(start, end) then []
    else
      OrdinalBefore(start, end);
      OrdinalNextDay(start);
      [start] + DaysBetween(NextDay(start), end)
  }

  /** A valid date is in the range iff start <= d < end. */
  lemma {:induction false} DaysBetweenExact(start: Date, end: Date, d: Date)
    requires ValidDate(start) && ValidDate(end) && ValidDate(d)
    ensures d in DaysBetween(start, end) <==> NotAfter(start, d) && Before(d, end)
    decreases Ordinal(end) - Ordinal(start)
  {
    if Before(start, end) {
      OrdinalBefore(start, end);
      OrdinalNextDay(start);
      NextDayIsSuccessor(start, d);
      DaysBetweenExact(NextDay(start), end, d);
    }
  }

  /** The range holds valid dates, one day apart, so it is strictly increasing, and
      it has one element per ordinal in [start, end). */
  lemma {:induction false} DaysBetweenSteps(start: Date, end: Date)
    requires ValidDate(start) && ValidDate(end)
    ensures var r := DaysBetween(start, end);
      && |r| == (if Before(start, end) then Ordinal(end) - Ordinal(start) else 0)
      && (forall i :: 0 <= i < |r| ==> ValidDate(r[i]) && Ordinal(r[i]) == Ordinal(start) + i)
      && (forall i :: 0 <= i < |r| - 1 ==> r[i + 1] == NextDay(r[i]))
    decreases Ordinal(end) - Ordinal(start)
  {
    if Before(start, end) {
      OrdinalBefore(start, end);
      OrdinalNextDay(start);
      var next := NextDay(start);
      DaysBetweenSteps(next, end);
      if !Before(next, end) {
        OrdinalOrder(next, end);
      }
    } else {
      OrdinalOrder(start, end);
    }
  }

  /** Strictly increasing: earlier positions hold earlier dates. */
  lemma DaysBetweenIncreasing(start: Date, end: Date)
    requires ValidDate(start) && ValidDate(end)
    ensures var r := DaysBetween(start, end);
      forall i, j :: 0 <= i < j < |r| ==> Before(r[i], r[j])
  {
    var r := DaysBetween(start, end);
    DaysBetweenSteps(start, end);
    forall i, j | 0 <= i < j < |r| ensures Before(r[i], r[j]) {
      OrdinalOrder(r[i], r[j]);
    }
  }
}
