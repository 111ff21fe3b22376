/** The 2025 Heikin-Ashi recompute: the rows of 2025 are deleted from the three HA
    tables, then the year is processed one calendar month at a time, each month for
    the big, small and 1-minute widths read from the default settings row. */
module HaRecompute {
  import opened Wrappers
  import opened Calendar
  import opened Seqs
  import opened Partitions
  import opened HeikinAshi

  const Tables: seq<string> := ["ha_big", "ha_small", "ha_1m"]
  const RecomputeStart: Date := Date(2025, 1, 1)
  const RecomputeEnd: Date := Date(2026, 1, 1)

  /** start <= d < end. */
  predicate InRange(start: Date, end: Date, d: Date) {
    NotAfter(start, d) && Before(d, end)
  }

  function Outside(start: Date, end: Date): HaCandle -> bool {
    (r: HaCandle) => !InRange(start, end, r.candle.tradeDate)
  }

  /** `delete_range(table, start, end)`: the rows left after the DELETE. */
  function DeleteRange(rows: seq<HaCandle>, start: Date, end: Date): seq<HaCandle> {
    Filter(rows, Outside(start, end))
  }

  /** The DELETE removes exactly the rows with start <= trade_date < end, and is
      idempotent. */
  lemma DeleteRangeExact(rows: seq<HaCandle>, start: Date, end: Date, x: HaCandle)
    ensures x in DeleteRange(rows, start, end) <==> x in rows && !InRange(start, end, x.candle.tradeDate)
    ensures DeleteRange(DeleteRange(rows, start, end), start, end) == DeleteRange(rows, start, end)
  {
    FilterMember(rows, Outside(start, end), x);
    FilterFilter(rows, Outside(start, end), Outside(start, end));
  }

  // ---- the month windows ----

  lemma BeforeMonthIndex(a: Date, b: Date)
    requires ValidDate(a) && ValidDate(b) && Before(a, b)
    ensures MonthIndex(a) <= MonthIndex(b)
  {
  }

  /** The windows [m_start, m_end) of the `while m_start < end` loop: each ends on
      the first of the month after its start. */
  function Windows(start: Date, end: Date): seq<(Date, Date)>
    requires ValidDate(start) && ValidDate(end)
    decreases MonthIndex(end) + 1 - MonthIndex(start)
  {
    if !Before(start, end) then []
    else
      var next := NextMonthStart(start.year, start.month);
      MonthIndexNext(start.year, start.month);
      BeforeMonthIndex(start, end);
      [(start, next)] + Windows(next, end)
  }

  /** The windows start at start, are contiguous, each is one calendar month (the
      first may begin mid-month), each begins before end, and together they reach
      end: exactly end when end is the first of a month. */
  lemma {:induction false} WindowsTile(start: Date, end: Date)
    requires ValidDate(start) && ValidDate(end)
    ensures var w := Windows(start, end);
      && (w != [] <==> Before(start, end))
      && (w != [] ==> w[0].0 == start && NotAfter(end, w[|w| - 1].1))
      && (w != [] && end.day == 1 ==> w[|w| - 1].1 == end)
      && (forall i :: 0 <= i < |w| ==>
            ValidDate(w[i].0) && Before(w[i].0, end) && w[i].1 == NextMonthStart(w[i].0.year, w[i].0.month))
      && (forall i :: 0 <= i < |w| - 1 ==> w[i].1 == w[i + 1].0)
    decreases MonthIndex(end) + 1 - MonthIndex(start)
  {
    if Before(start, end) {
      var next := NextMonthStart(start.year, start.month);
      MonthIndexNext(start.year, start.month);
      BeforeMonthIndex(start, end);
      WindowsTile(next, end);
      var w := Windows(start, end);
      var rest := Windows(next, end);
      assert w == [(start, next)] + rest;
      if rest == [] {
        // next is not before end, while start is: end lies in start's month.
        FirstOfMonthNotAfter(next, end);
        if end.day == 1 {
          FirstOfMonthNotAfter(end, start);
          FirstOfMonthOrder(next, end);
        }
      }
      forall i | 0 <= i < |w| - 1 ensures w[i].1 == w[i + 1].0 {
        if i > 0 {
          assert w[i] == rest[i - 1] && w[i + 1] == rest[i];
        }
      }
    }
  }

  /** With both ends on the first of a month, there is one window per month. */
  lemma {:induction false} WindowsCount(start: Date, end: Date)
    requires ValidDate(start) && ValidDate(end) && start.day == 1 && end.day == 1
    requires NotAfter(start, end)
    ensures |Windows(start, end)| == MonthIndex(end) - MonthIndex(start)
    decreases MonthIndex(end) + 1 - MonthIndex(start)
  {
    FirstOfMonthOrder(start, end);
    if Before(start, end) {
      var next := NextMonthStart(start.year, start.month);
      MonthIndexNext(start.year, start.month);
      MonthOfIndexOf(start);
      FirstOfMonthOrder(next, end);
      WindowsCount(next, end);
    }
  }

  /** The days of the windows, window after window. */
  function WindowDays(w: seq<(Date, Date)>): seq<Date>
    requires forall i :: 0 <= i < |w| ==> ValidDate(w[i].0) && ValidDate(w[i].1)
  {
    if w == [] then [] else DaysBetween(w[0].0, w[0].1) + WindowDays(w[1..])
  }

  /** A range splits at any day inside it. */
  lemma {:induction false} DaysBetweenSplit(a: Date, b: Date, c: Date)
    requires ValidDate(a) && ValidDate(b) && ValidDate(c) && NotAfter(a, b) && NotAfter(b, c)
    ensures DaysBetween(a, c) == DaysBetween(a, b) + DaysBetween(b, c)
    decreases Ordinal(b) - Ordinal(a)
  {
    if a != b {
      OrdinalBefore(a, b);
      OrdinalNextDay(a);
      NextDayIsSuccessor(a, b);
      assert Before(a, c);
      DaysBetweenSplit(NextDay(a), b, c);
    }
  }

  /** Processing month by month visits exactly the days start <= d < end, each once
      and in order, when end is the first of a month. */
  lemma {:induction false} WindowsDays(start: Date, end: Date)
    requires ValidDate(start) && ValidDate(end) && end.day == 1
    ensures forall i :: 0 <= i < |Windows(start, end)| ==>
      ValidDate(Windows(start, end)[i].0) && ValidDate(Windows(start, end)[i].1)
    ensures WindowDays(Windows(start, end)) == DaysBetween(start, end)
    decreases MonthIndex(end) + 1 - MonthIndex(start)
  {
    WindowsTile(start, end);
    if Before(start, end) {
      var next := NextMonthStart(start.year, start.month);
      MonthIndexNext(start.year, start.month);
      BeforeMonthIndex(start, end);
      WindowsDays(next, end);
      WindowsTile(next, end);
      var rest := Windows(next, end);
      if rest == [] {
        assert next == end;
      } else {
        assert NotAfter(next, end);
      }
      assert NotAfter(start, next);
      DaysBetweenSplit(start, next, end);
    }
  }

  /** The script's year has twelve windows, January 2025 through December 2025,
      the last ending on 2026-01-01. */
  lemma ScriptWindows()
    ensures |Windows(RecomputeStart, RecomputeEnd)| == 12
    ensures Windows(RecomputeStart, RecomputeEnd)[0] == (Date(2025, 1, 1), Date(2025, 2, 1))
    ensures Windows(RecomputeStart, RecomputeEnd)[11] == (Date(2025, 12, 1), Date(2026, 1, 1))
  {
    WindowsCount(RecomputeStart, RecomputeEnd);
    WindowsTile(RecomputeStart, RecomputeEnd);
    var w := Windows(RecomputeStart, RecomputeEnd);
    assert w[11].1 == RecomputeEnd;
    MonthIndexNext(w[11].0.year, w[11].0.month);
  }

  // ---- the calls ----

  /** One `compute.process_range(m_start, m_end, interval, table)`. */
  datatype Call = Call(from: Date, to: Date, interval: int, table: string)

  function WindowCalls(w: (Date, Date), iv: Intervals): (r: seq<Call>)
    ensures |r| == 3
  {
    var targets := Targets(iv);
    seq(3, j requires 0 <= j < 3 => Call(w.0, w.1, targets[j].0, targets[j].1))
  }

  /** The calls of the windows, window after window. */
  function Plan(windows: seq<(Date, Date)>, iv: Intervals): (r: seq<Call>)
    ensures |r| == 3 * |windows|
  {
    if windows == [] then []
    else Plan(windows[..|windows| - 1], iv) + WindowCalls(windows[|windows| - 1], iv)
  }

  /** The j-th call of window i is the j-th target (big, small, 1m) over that window. */
  lemma {:induction false} PlanAt(windows: seq<(Date, Date)>, iv: Intervals, i: nat, j: nat)
    requires i < |windows| && j < 3
    ensures Plan(windows, iv)[3 * i + j] ==
      Call(windows[i].0, windows[i].1, Targets(iv)[j].0, Targets(iv)[j].1)
  {
    var init := windows[..|windows| - 1];
    if i < |windows| - 1 {
      PlanAt(init, iv, i, j);
    }
  }

  /** `for t in tables: delete_range(t, start, end)`. */
  method DeleteTables(db: map<string, seq<HaCandle>>, start: Date, end: Date)
    returns (cleared: map<string, seq<HaCandle>>)
    requires forall k :: 0 <= k < |Tables| ==> Tables[k] in db
    ensures cleared.Keys == db.Keys
    ensures forall t :: t in db ==> cleared[t] == if t in Tables then DeleteRange(db[t], start, end) else db[t]
  {
    cleared := db;
    for k := 0 to |Tables|
      invariant cleared.Keys == db.Keys
      invariant forall t :: t in db ==> cleared[t] == if t in Tables[..k] then DeleteRange(db[t], start, end) else db[t]
    {
      var table := Tables[k];
      assert table !in Tables[..k];
      cleared := cleared[table := DeleteRange(cleared[table], start, end)];
      assert Tables[..k + 1] == Tables[..k] + [table];
    }
    assert Tables[..|Tables|] == Tables;
  }

  /** `for interval, table in targets: compute.process_range(m_start, m_end, ...)`. */
  method ProcessWindow(mStart: Date, mEnd: Date, iv: Intervals) returns (calls: seq<Call>)
    ensures calls == WindowCalls((mStart, mEnd), iv)
  {
    var targets := Targets(iv);
    calls := [];
    for j := 0 to 3
      invariant calls == WindowCalls((mStart, mEnd), iv)[..j]
    {
      calls := calls + [Call(mStart, mEnd, targets[j].0, targets[j].1)];
    }
  }

  /** The `while m_start < end` loop, reading the widths before each window (15, 5,
      1 without a default row). */
  /** One more month: its window leads the remaining ones, and its calls follow
      those of the windows before it. */
  lemma WindowStep(done: seq<(Date, Date)>, mStart: Date, mEnd: Date, end: Date, iv: Intervals)
    requires ValidDate(mStart) && ValidDate(end) && Before(mStart, end)
    requires mEnd == if mStart.month == 12 then Date(mStart.year + 1, 1, 1) else Date(mStart.year, mStart.month + 1, 1)
    ensures mEnd == NextMonthStart(mStart.year, mStart.month)
    ensures ValidDate(mEnd) && MonthIndex(end) + 1 - MonthIndex(mEnd) < MonthIndex(end) + 1 - MonthIndex(mStart)
    ensures Windows(mStart, end) == [(mStart, mEnd)] + Windows(mEnd, end)
    ensures Plan(done + [(mStart, mEnd)], iv) == Plan(done, iv) + WindowCalls((mStart, mEnd), iv)
  {
    MonthIndexNext(mStart.year, mStart.month);
    BeforeMonthIndex(mStart, end);
    assert (done + [(mStart, mEnd)])[..|done|] == done;
  }

  method ProcessWindows(settings: Option<Intervals>, start: Date, end: Date) returns (calls: seq<Call>)
    requires ValidDate(start) && ValidDate(end)
    ensures calls == Plan(Windows(start, end), IntervalsOrDefault(settings))
  {
    var mStart := start;
    ghost var done: seq<(Date, Date)> := [];
    calls := [];
    while Before(mStart, end)
      invariant ValidDate(mStart)
      invariant done + Windows(mStart, end) == Windows(start, end)
      invariant calls == Plan(done, IntervalsOrDefault(settings))
      decreases MonthIndex(end) + 1 - MonthIndex(mStart)
    {
      var mEnd: Date;
      if mStart.month == 12 {
        mEnd := Date(mStart.year + 1, 1, 1);
      } else {
        mEnd := Date(mStart.year, mStart.month + 1, 1);
      }
      WindowStep(done, mStart, mEnd, end, IntervalsOrDefault(settings));
      var more := ProcessWindow(mStart, mEnd, IntervalsOrDefault(settings));
      calls := calls + more;
      assert (done + [(mStart, mEnd)]) + Windows(mEnd, end) == done + Windows(mStart, end);
      done := done + [(mStart, mEnd)];
      mStart := mEnd;
    }
    assert Windows(mStart, end) == [];
    assert done + [] == done;
  }

  /** The script: delete the range from every HA table, then process the windows. */
  method Recompute(db: map<string, seq<HaCandle>>, settings: Option<Intervals>, start: Date, end: Date)
    returns (cleared: map<string, seq<HaCandle>>, calls: seq<Call>)
    requires ValidDate(start) && ValidDate(end)
    requires forall k :: 0 <= k < |Tables| ==> Tables[k] in db
    ensures cleared.Keys == db.Keys
    ensures forall t :: t in db ==> cleared[t] == if t in Tables then DeleteRange(db[t], start, end) else db[t]
    ensures calls == Plan(Windows(start, end), IntervalsOrDefault(settings))
  {
    cleared := DeleteTables(db, start, end);
    calls := ProcessWindows(settings, start, end);
  }
}
