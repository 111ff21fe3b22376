/** The report helpers of the web front end (app.py): the no-trade-date
    computation and the per-strategy sheets of `download_results`, the
    Rankings sheet of `download_analysis`, and the top strategies of
    `results`. */
module AppReports {

  import opened Wrappers
  import opened Text
  import opened Seqs
  import opened Sorting
  import opened Calendar

  /** The columns of a strategy_run_results row that these helpers read;
      entry_time is in seconds since midnight. */
  datatype ResultRow = ResultRow(
    strategy: string, tradeDate: Date, expiryDate: Date, entryTime: int,
    optionType: string, legType: string, strike: real)

  predicate AllValid(rows: seq<ResultRow>) {
    forall i :: 0 <= i < |rows| ==> ValidDate(rows[i].tradeDate)
  }

  // ---- no-trade dates ----

  function Names(rows: seq<ResultRow>): (r: seq<string>)
    ensures |r| == |rows|
  {
    seq(|rows|, i requires 0 <= i < |rows| => rows[i].strategy)
  }

  function OfStrategy(s: string): ResultRow -> bool {
    (r: ResultRow) => r.strategy == s
  }

  /** The trade dates of one strategy's rows. */
  function DatesOf(rows: seq<ResultRow>, s: string): (r: seq<Date>)
    requires AllValid(rows)
    ensures forall d :: d in r <==> exists i :: 0 <= i < |rows| && rows[i].strategy == s && rows[i].tradeDate == d
    ensures forall k :: 0 <= k < |r| ==> ValidDate(r[k])
  {
    var f := Filter(rows, OfStrategy(s));
    var r := seq(|f|, k requires 0 <= k < |f| => f[k].tradeDate);
    assert forall d :: d in r ==> exists i :: 0 <= i < |rows| && rows[i].strategy == s && rows[i].tradeDate == d by {
      forall d | d in r ensures exists i :: 0 <= i < |rows| && rows[i].strategy == s && rows[i].tradeDate == d {
        var k :| 0 <= k < |r| && r[k] == d;
        assert f[k] in rows;
      }
    }
    assert forall i :: 0 <= i < |rows| && rows[i].strategy == s ==> rows[i].tradeDate in r by {
      forall i | 0 <= i < |rows| && rows[i].strategy == s ensures rows[i].tradeDate in r {
        assert OfStrategy(s)(rows[i]);
        var k :| 0 <= k < |f| && f[k] == rows[i];
        assert r[k] == rows[i].tradeDate;
      }
    }
    r
  }

  /** `min` over dates. */
  function MinDate(ds: seq<Date>): (r: Date)
    requires |ds| > 0
    ensures r in ds && forall k :: 0 <= k < |ds| ==> NotAfter(r, ds[k])
    decreases |ds|
  {
    if |ds| == 1 then ds[0]
    else
      var m := MinDate(ds[1..]);
      assert forall k :: 1 <= k < |ds| ==> ds[k] == ds[1..][k - 1];
      if NotAfter(ds[0], m) then ds[0] else m
  }

  /** `max` over dates. */
  function MaxDate(ds: seq<Date>): (r: Date)
    requires |ds| > 0
    ensures r in ds && forall k :: 0 <= k < |ds| ==> NotAfter(ds[k], r)
    decreases |ds|
  {
    if |ds| == 1 then ds[0]
    else
      var m := MaxDate(ds[1..]);
      assert forall k :: 1 <= k < |ds| ==> ds[k] == ds[1..][k - 1];
      if NotAfter(m, ds[0]) then ds[0] else m
  }

  function NotIn(ds: seq<Date>): Date -> bool {
    (d: Date) => d !in ds
  }

  /** `missing_dates` of one strategy: the days from its earliest to its
      latest trade date, inclusive, that have no row. */
  function Missing(rows: seq<ResultRow>, s: string): seq<Date>
    requires AllValid(rows) && s in Names(rows)
  {
    var ds := DatesOf(rows, s);
    DatesNonEmpty(rows, s);
    var lo, hi := MinDate(ds), MaxDate(ds);
    Filter(DaysBetween(lo, NextDay(hi)), NotIn(ds))
  }

  lemma DatesNonEmpty(rows: seq<ResultRow>, s: string)
    requires AllValid(rows) && s in Names(rows)
    ensures |DatesOf(rows, s)| > 0
  {
    var i :| 0 <= i < |rows| && Names(rows)[i] == s;
    assert rows[i].tradeDate in DatesOf(rows, s);
  }

  function Tag(s: string, ds: seq<Date>): (r: seq<(string, Date)>)
    ensures |r| == |ds|
  {
    seq(|ds|, k requires 0 <= k < |ds| => (s, ds[k]))
  }

  /** The no-trade rows of the strategies `ns`, in that order. */
  function Pairs(rows: seq<ResultRow>, ns: seq<string>): seq<(string, Date)>
    requires AllValid(rows) && forall k :: 0 <= k < |ns| ==> ns[k] in Names(rows)
    decreases |ns|
  {
    if ns == [] then []
    else Pairs(rows, ns[..|ns| - 1]) + Tag(ns[|ns| - 1], Missing(rows, ns[|ns| - 1]))
  }

  /** The whole `no_trade_dates` list. */
  function NoTradeRows(rows: seq<ResultRow>): seq<(string, Date)>
    requires AllValid(rows)
  {
    Pairs(rows, Unique(Names(rows)))
  }

  lemma PairsStep(rows: seq<ResultRow>, ns: seq<string>, k: nat)
    requires AllValid(rows) && forall j :: 0 <= j < |ns| ==> ns[j] in Names(rows)
    requires k < |ns|
    ensures Pairs(rows, ns[..k + 1]) == Pairs(rows, ns[..k]) + Tag(ns[k], Missing(rows, ns[k]))
  {
    assert ns[..k + 1][..k] == ns[..k];
  }

  /** The inner loop: one `no_trade_dates` entry per missing day. */
  method AppendTagged(acc: seq<(string, Date)>, s: string, missing: seq<Date>) returns (out: seq<(string, Date)>)
    ensures out == acc + Tag(s, missing)
  {
    out := acc;
    for m := 0 to |missing|
      invariant out == acc + Tag(s, missing[..m])
    {
      assert Tag(s, missing[..m + 1]) == Tag(s, missing[..m]) + [(s, missing[m])];
      out := out + [(s, missing[m])];
    }
    assert missing[..|missing|] == missing;
  }

  /** The loop of `download_results` that builds `no_trade_dates`. */
  method NoTradeDates(rows: seq<ResultRow>) returns (out: seq<(string, Date)>)
    requires AllValid(rows)
    ensures out == NoTradeRows(rows)
  {
    var names := Unique(Names(rows));
    assert forall j :: 0 <= j < |names| ==> names[j] in Names(rows);
    out := [];
    for k := 0 to |names|
      invariant out == Pairs(rows, names[..k])
    {
      var s := names[k];
      var missing := Missing(rows, s);
      out := AppendTagged(out, s, missing);
      PairsStep(rows, names, k);
    }
    assert names[..|names|] == names;
  }

  lemma {:induction false} PairsMember(rows: seq<ResultRow>, ns: seq<string>, s: string, d: Date)
    requires AllValid(rows) && forall k :: 0 <= k < |ns| ==> ns[k] in Names(rows)
    ensures (s, d) in Pairs(rows, ns) <==> s in ns && d in Missing(rows, s)
    decreases |ns|
  {
    if ns != [] {
      var init, last := ns[..|ns| - 1], ns[|ns| - 1];
      assert forall k :: 0 <= k < |init| ==> init[k] in Names(rows) by {
        forall k | 0 <= k < |init| ensures init[k] in Names(rows) {
          assert init[k] == ns[k];
        }
      }
      PairsMember(rows, init, s, d);
      InFrontOrLast(ns, s);
      TagMember(last, Missing(rows, last), s, d);
      assert Pairs(rows, ns) == Pairs(rows, init) + Tag(last, Missing(rows, last));
    }
  }

  /** The tagged pairs are the given dates, each with the given name. */
  lemma TagMember(s0: string, ds: seq<Date>, s: string, d: Date)
    ensures (s, d) in Tag(s0, ds) <==> s == s0 && d in ds
  {
    var t := Tag(s0, ds);
    if (s, d) in t {
      var k :| 0 <= k < |t| && t[k] == (s, d);
    }
    if s == s0 && d in ds {
      var k :| 0 <= k < |ds| && ds[k] == d;
      assert t[k] == (s, d);
    }
  }

  /** `pd.date_range(lo, hi)` is inclusive: d < hi + 1 day iff d <= hi. */
  lemma InclusiveEnd(hi: Date, d: Date)
    requires ValidDate(hi) && ValidDate(d)
    ensures Before(d, NextDay(hi)) <==> NotAfter(d, hi)
  {
    NextDayIsSuccessor(hi, d);
  }

  lemma DaysBetweenValid(start: Date, end: Date, d: Date)
    requires ValidDate(start) && ValidDate(end)
    ensures d in DaysBetween(start, end) ==> ValidDate(d)
  {
    DaysBetweenSteps(start, end);
  }

  /** A day is missing iff it lies between the earliest and latest trade date
      of the strategy and has no row. */
  lemma MissingMember(rows: seq<ResultRow>, s: string, d: Date)
    requires AllValid(rows) && s in Names(rows)
    ensures |DatesOf(rows, s)| > 0
    ensures d in Missing(rows, s) <==>
              ValidDate(d) && NotAfter(MinDate(DatesOf(rows, s)), d)
              && NotAfter(d, MaxDate(DatesOf(rows, s))) && d !in DatesOf(rows, s)
  {
    var ds := DatesOf(rows, s);
    DatesNonEmpty(rows, s);
    var lo, hi := MinDate(ds), MaxDate(ds);
    var all := DaysBetween(lo, NextDay(hi));
    FilterMember(all, NotIn(ds), d);
    DaysBetweenValid(lo, NextDay(hi), d);
    if ValidDate(d) {
      DaysBetweenExact(lo, NextDay(hi), d);
      InclusiveEnd(hi, d);
    }
  }

  predicate RowOnOrBefore(rows: seq<ResultRow>, s: string, d: Date) {
    exists i :: 0 <= i < |rows| && rows[i].strategy == s && NotAfter(rows[i].tradeDate, d)
  }

  predicate RowOnOrAfter(rows: seq<ResultRow>, s: string, d: Date) {
    exists i :: 0 <= i < |rows| && rows[i].strategy == s && NotAfter(d, rows[i].tradeDate)
  }

  predicate NoRowOn(rows: seq<ResultRow>, s: string, d: Date) {
    forall i :: 0 <= i < |rows| && rows[i].strategy == s ==> rows[i].tradeDate != d
  }

  /** The earliest date of a strategy is on or before d iff one of its rows is. */
  lemma SpanLow(rows: seq<ResultRow>, s: string, d: Date)
    requires AllValid(rows) && s in Names(rows)
    ensures |DatesOf(rows, s)| > 0
    ensures NotAfter(MinDate(DatesOf(rows, s)), d) <==> RowOnOrBefore(rows, s, d)
  {
    var ds := DatesOf(rows, s);
    DatesNonEmpty(rows, s);
    var lo := MinDate(ds);
    if RowOnOrBefore(rows, s, d) {
      var i :| 0 <= i < |rows| && rows[i].strategy == s && NotAfter(rows[i].tradeDate, d);
      assert rows[i].tradeDate in ds;
    }
    if NotAfter(lo, d) {
      var i :| 0 <= i < |rows| && rows[i].strategy == s && rows[i].tradeDate == lo;
    }
  }

  /** The latest date of a strategy is on or after d iff one of its rows is. */
  lemma SpanHigh(rows: seq<ResultRow>, s: string, d: Date)
    requires AllValid(rows) && s in Names(rows)
    ensures |DatesOf(rows, s)| > 0
    ensures NotAfter(d, MaxDate(DatesOf(rows, s))) <==> RowOnOrAfter(rows, s, d)
  {
    var ds := DatesOf(rows, s);
    DatesNonEmpty(rows, s);
    var hi := MaxDate(ds);
    if RowOnOrAfter(rows, s, d) {
      var i :| 0 <= i < |rows| && rows[i].strategy == s && NotAfter(d, rows[i].tradeDate);
      assert rows[i].tradeDate in ds;
    }
    if NotAfter(d, hi) {
      var i :| 0 <= i < |rows| && rows[i].strategy == s && rows[i].tradeDate == hi;
    }
  }

  lemma SpanDates(rows: seq<ResultRow>, s: string, d: Date)
    requires AllValid(rows)
    ensures d !in DatesOf(rows, s) <==> NoRowOn(rows, s, d)
  {
  }

  lemma NoStrategyNoRows(rows: seq<ResultRow>, s: string, d: Date)
    requires s !in Names(rows)
    ensures !RowOnOrBefore(rows, s, d)
  {
    forall i | 0 <= i < |rows| ensures rows[i].strategy != s {
      assert Names(rows)[i] == rows[i].strategy;
    }
  }

  /** `(s, d)` is reported iff d is a day with no row of s, some row of s is
      on or before d, and some row of s is on or after d. */
  lemma NoTradeDateExact(rows: seq<ResultRow>, s: string, d: Date)
    requires AllValid(rows)
    ensures (s, d) in NoTradeRows(rows) <==>
              ValidDate(d) && RowOnOrBefore(rows, s, d) && RowOnOrAfter(rows, s, d) && NoRowOn(rows, s, d)
  {
    PairsMember(rows, Unique(Names(rows)), s, d);
    if s in Names(rows) {
      MissingMember(rows, s, d);
      SpanLow(rows, s, d);
      SpanHigh(rows, s, d);
      SpanDates(rows, s, d);
    } else {
      NoStrategyNoRows(rows, s, d);
    }
  }

  // ---- strategy sheets ----

  /** Characters Excel refuses in a sheet name, each replaced by '_'. */
  predicate Forbidden(c: char) {
    c == '/' || c == '\\' || c == '[' || c == ']' || c == '*' || c == '?' || c == ':'
  }

  /** `str.replace(a, b)` for single characters. */
  function ReplaceChar(s: string, a: char, b: char): (r: string)
    ensures |r| == |s|
    ensures forall i :: 0 <= i < |s| ==> r[i] == (if s[i] == a then b else s[i])
  {
    seq(|s|, i requires 0 <= i < |s| => if s[i] == a then b else s[i])
  }

  /** The chain of seven replacements, then `[:31]`. */
  function SafeSheetName(name: string): string {
    var r := ReplaceChar(ReplaceChar(ReplaceChar(ReplaceChar(ReplaceChar(ReplaceChar(ReplaceChar(
      name, '/', '_'), '\\', '_'), '[', '_'), ']', '_'), '*', '_'), '?', '_'), ':', '_');
    if |r| <= 31 then r else r[..31]
  }

  /** The chain acts character by character: the first 31 characters of the
      name, each forbidden one turned into '_'. */
  lemma SafeSheetNameExact(name: string)
    ensures |SafeSheetName(name)| == (if |name| <= 31 then |name| else 31)
    ensures forall i :: 0 <= i < |SafeSheetName(name)| ==>
              SafeSheetName(name)[i] == (if Forbidden(name[i]) then '_' else name[i])
    ensures forall i :: 0 <= i < |SafeSheetName(name)| ==> !Forbidden(SafeSheetName(name)[i])
  {
  }

  /** Sanitising a sanitised name changes nothing. */
  lemma SafeSheetNameIdempotent(name: string)
    ensures SafeSheetName(SafeSheetName(name)) == SafeSheetName(name)
  {
    SafeSheetNameExact(name);
    SafeSheetNameExact(SafeSheetName(name));
  }

  /** Two different strategies can be given the same sheet name. */
  lemma SheetNamesCanCollide()
    ensures SafeSheetName("a/b") == SafeSheetName("a:b")
  {
    SafeSheetNameExact("a/b");
    SafeSheetNameExact("a:b");
  }

  /** The sort of a strategy sheet: trade_date, expiry_date, entry_time,
      option_type, leg_type, strike, each ascending. */
  predicate SheetLeq(a: ResultRow, b: ResultRow) {
    if a.tradeDate != b.tradeDate then Before(a.tradeDate, b.tradeDate)
    else if a.expiryDate != b.expiryDate then Before(a.expiryDate, b.expiryDate)
    else if a.entryTime != b.entryTime then a.entryTime < b.entryTime
    else if a.optionType != b.optionType then StrLeq(a.optionType, b.optionType)
    else if a.legType != b.legType then StrLeq(a.legType, b.legType)
    else a.strike <= b.strike
  }

  function SheetOrder(): (ResultRow, ResultRow) -> bool {
    (a, b) => SheetLeq(a, b)
  }

  lemma SheetOrderTotalPreorder()
    ensures TotalPreorder(SheetOrder())
  {
    forall a: ResultRow, b: ResultRow ensures SheetLeq(a, b) || SheetLeq(b, a) {
      StrLeqTotal(a.optionType, b.optionType);
      StrLeqTotal(a.legType, b.legType);
    }
    forall a: ResultRow, b: ResultRow, c: ResultRow | SheetLeq(a, b) && SheetLeq(b, c)
      ensures SheetLeq(a, c)
    {
      if a.optionType != b.optionType && b.optionType != c.optionType {
        if StrLeq(a.optionType, b.optionType) && StrLeq(b.optionType, c.optionType) {
          StrLeqTransitive(a.optionType, b.optionType, c.optionType);
          if a.optionType == c.optionType {
            StrLeqAntisymmetric(a.optionType, b.optionType);
          }
        }
      }
      if a.legType != b.legType && b.legType != c.legType {
        if StrLeq(a.legType, b.legType) && StrLeq(b.legType, c.legType) {
          StrLeqTransitive(a.legType, b.legType, c.legType);
          if a.legType == c.legType {
            StrLeqAntisymmetric(a.legType, b.legType);
          }
        }
      }
    }
  }

  /** One strategy's sheet: its sanitised name and its rows in sheet order. */
  function StrategySheet(rows: seq<ResultRow>, s: string): (sheet: (string, seq<ResultRow>))
    ensures multiset(sheet.1) == multiset(Filter(rows, OfStrategy(s)))
    ensures Sorted(sheet.1, SheetOrder())
  {
    SheetOrderTotalPreorder();
    (SafeSheetName(s), Sort(Filter(rows, OfStrategy(s)), SheetOrder()))
  }

  // ---- rankings and top strategies ----

  /** A row of the strategy summary query, already ordered by total_pnl descending. */
  datatype Summary = Summary(strategy: string, totalPnl: real)

  datatype Block = Top | Bottom

  /** A row of the Rankings sheet. The strategy and total are None (NaN in the
      sheet) on a row pandas creates without a summary row behind it. */
  datatype Ranked = Ranked(rank: int, strategy: Option<string>, totalPnl: Option<real>, block: Block)

  /** The Rankings sheet: `head(5)` labelled 1..k, then `tail(5)` labelled
      n-4..n. Assigning five labels to a tail of one to four rows raises
      ValueError. On an empty summary the assignment to the empty tail creates
      five rows instead, labelled -4..0, with no strategy and no total. */
  function Rankings(overall: seq<Summary>): Result<seq<Ranked>, string> {
    var n := |overall|;
    var k := if n < 5 then n else 5;
    var top := overall[..k];
    var bottom := overall[n - k..];
    if n == 0 then Ok(seq(5, i requires 0 <= i < 5 => Ranked(i - 4, None, None, Bottom)))
    else if |bottom| != 5 then Err("Length of values does not match length of index")
    else Ok(seq(k, i requires 0 <= i < k => Ranked(i + 1, Some(top[i].strategy), Some(top[i].totalPnl), Top))
            + seq(5, i requires 0 <= i < 5 => Ranked(n - 4 + i, Some(bottom[i].strategy), Some(bottom[i].totalPnl), Bottom)))
  }

  /** The sheet fails exactly for one to four strategies. With none it holds five
      Bottom rows labelled -4..0 and no strategy; with five or more it has ten rows,
      five Top then five Bottom, and every label is the row's 1-based position in
      the summary. */
  lemma RankingsLabels(overall: seq<Summary>)
    ensures Rankings(overall).Err? <==> 1 <= |overall| <= 4
    ensures |overall| == 0 ==>
              var r := Rankings(overall).value;
              |r| == 5 && forall i :: 0 <= i < 5 ==> r[i] == Ranked(i - 4, None, None, Bottom)
    ensures |overall| >= 5 ==>
              var r := Rankings(overall).value;
              |r| == 10
              && (forall i :: 0 <= i < 10 ==>
                    (1 <= r[i].rank <= |overall| && r[i].strategy.Some? && r[i].totalPnl.Some?
                     && overall[r[i].rank - 1] == Summary(r[i].strategy.value, r[i].totalPnl.value)))
              && (forall i :: 0 <= i < 10 ==> r[i].block == (if i < 5 then Top else Bottom))
              && (forall i :: 0 <= i < 10 ==> r[i].rank == (if i < 5 then i + 1 else |overall| - 9 + i))
  {
  }

  /** `overall_df.head(3)`. */
  function TopStrategies(overall: seq<Summary>): (r: seq<Summary>)
    ensures |r| == if |overall| < 3 then |overall| else 3
  {
    if |overall| < 3 then overall else overall[..3]
  }

  predicate Descending(overall: seq<Summary>) {
    forall i, j :: 0 <= i < j < |overall| ==> overall[i].totalPnl >= overall[j].totalPnl
  }

  /** On the query's descending order, every listed strategy has a total at
      least that of every strategy left out, and the list is a prefix. */
  lemma TopStrategiesAreBest(overall: seq<Summary>)
    requires Descending(overall)
    ensures var t := TopStrategies(overall);
      (forall i :: 0 <= i < |t| ==> t[i] == overall[i])
      && forall i, j :: 0 <= i < |t| <= j < |overall| ==> t[i].totalPnl >= overall[j].totalPnl
  {
  }
}
