/** The Heikin-Ashi population script: the candle widths of a strategy (15, 5, 1
    minutes whenever the settings cannot supply them), the date window (by default
    the thirty days ending tomorrow, end excluded), and one insert-if-absent of the
    database's Heikin-Ashi rows inside the window per target table. */
module HaPopulate {
  import opened Wrappers
  import opened Calendar
  import opened Seqs
  import opened KeyedTable
  import opened DateParse
  import opened HeikinAshi

  // ---- `get_strategy_intervals` ----

  /** One row of the settings query, by column name; NULL is None. */
  type SettingsRow = map<string, Option<int>>

  /** An item of the fetched result: a chunk of rows, or a single row. */
  datatype Fetched = Batch(rows: seq<SettingsRow>) | Single(row: SettingsRow)

  /** The row the function reads: the first row of the first chunk, or the first
      item itself when it is a row. */
  function FirstRow(items: seq<Fetched>): Option<SettingsRow> {
    if items == [] then None
    else match items[0]
      case Batch(rows) => if rows == [] then None else Some(rows[0])
      case Single(row) => Some(row)
  }

  /** `int(r[c])` succeeds: the column is present and not NULL. */
  predicate Readable(row: SettingsRow, c: string) {
    c in row && row[c].Some?
  }

  predicate Complete(row: SettingsRow) {
    Readable(row, "big") && Readable(row, "small") && Readable(row, "one_m")
  }

  function GetStrategyIntervals(items: seq<Fetched>): (r: Intervals)
    ensures r != DefaultIntervals ==> FirstRow(items).Some? && Complete(FirstRow(items).value)
  {
    match FirstRow(items)
    case None => DefaultIntervals
    case Some(row) =>
      if Complete(row) then Intervals(row["big"].value, row["small"].value, row["one_m"].value)
      else DefaultIntervals
  }

  /** 15, 5 and 1 minutes when nothing is fetched, when the first chunk is empty, and
      when a width of the row read is missing or NULL; otherwise that row's widths. */
  lemma IntervalsFallback(items: seq<Fetched>)
    ensures items == [] ==> GetStrategyIntervals(items) == Intervals(15, 5, 1)
    ensures items != [] && items[0] == Batch([]) ==> GetStrategyIntervals(items) == Intervals(15, 5, 1)
    ensures FirstRow(items).Some? && !Complete(FirstRow(items).value) ==>
      GetStrategyIntervals(items) == Intervals(15, 5, 1)
    ensures FirstRow(items).Some? && Complete(FirstRow(items).value) ==>
      var row := FirstRow(items).value;
      GetStrategyIntervals(items) == Intervals(row["big"].value, row["small"].value, row["one_m"].value)
  {
  }

  /** Both result shapes give the same widths, and only the first row is read. */
  lemma IntervalsShapesAgree(row: SettingsRow, rest: seq<SettingsRow>, more: seq<Fetched>, others: seq<Fetched>)
    ensures GetStrategyIntervals([Batch([row] + rest)] + more) == GetStrategyIntervals([Single(row)] + others)
  {
    assert FirstRow([Batch([row] + rest)] + more) == Some(row);
    assert FirstRow([Single(row)] + others) == Some(row);
  }

  // ---- the date window ----

  /** The largest `datetime.date`. */
  const MaxDate: Date := Date(9999, 12, 31)

  /** An argument counts only when it is given and not empty. */
  predicate Given(arg: Option<string>) {
    arg.Some? && arg.value != ""
  }

  /** `--end`, or `today + timedelta(days=1)`, which overflows on the last date. */
  function EndOf(today: Day, endArg: Option<string>): (r: Result<Date, string>)
    ensures r.Ok? ==> ValidDate(r.value)
    ensures Given(endArg) ==> r == ParseYmd(endArg.value)
    ensures !Given(endArg) ==> (r.Err? <==> today == MaxDate)
    ensures !Given(endArg) && r.Ok? ==> Ordinal(r.value) == Ordinal(today) + 1
  {
    if Given(endArg) then ParseYmd(endArg.value)
    else if today == MaxDate then Err("date value out of range")
    else
      OrdinalNextDay(today);
      Ok(NextDay(today))
  }

  /** `--start`, or `end - timedelta(days=30)`, which fails before 0001-01-01. */
  function StartOf(end: Date, startArg: Option<string>): (r: Result<Date, string>)
    requires ValidDate(end)
    ensures r.Ok? ==> ValidDate(r.value)
    ensures Given(startArg) ==> r == ParseYmd(startArg.value)
    ensures !Given(startArg) ==> (r.Err? <==> Ordinal(end) <= 30)
    ensures !Given(startArg) && r.Ok? ==> Ordinal(r.value) == Ordinal(end) - 30
  {
    if Given(startArg) then ParseYmd(startArg.value)
    else if Ordinal(end) <= 30 then Err("date value out of range")
    else
      OrdinalDaysBefore(end, 30);
      Ok(DaysBefore(end, 30))
  }

  /** The window [start, end): end first, then start, as the script computes them. */
  function PopulateWindow(today: Day, startArg: Option<string>, endArg: Option<string>): (r: Result<(Date, Date), string>)
    ensures r.Ok? ==> ValidDate(r.value.0) && ValidDate(r.value.1)
  {
    match EndOf(today, endArg)
    case Err(e) => Err(e)
    case Ok(end) =>
      match StartOf(end, startArg)
      case Err(e) => Err(e)
      case Ok(start) => Ok((start, end))
  }

  /** Without arguments the window is the thirty days ending with today: it ends
      tomorrow, excluded, and holds exactly thirty days, the last of them today. */
  lemma DefaultWindow(today: Day)
    requires today != MaxDate && Ordinal(today) >= 30
    ensures PopulateWindow(today, None, None).Ok?
    ensures var w := PopulateWindow(today, None, None).value;
      var days := DaysBetween(w.0, w.1);
      && w.1 == NextDay(today)
      && |days| == 30
      && days[29] == today
  {
    var end := NextDay(today);
    OrdinalNextDay(today);
    var start := DaysBefore(end, 30);
    OrdinalDaysBefore(end, 30);
    OrdinalOrder(start, end);
    DaysBetweenSteps(start, end);
    var days := DaysBetween(start, end);
    OrdinalOrder(days[29], today);
  }

  /** An empty argument is the same as an absent one. */
  lemma EmptyArgumentsIgnored(today: Day)
    ensures PopulateWindow(today, Some(""), Some("")) == PopulateWindow(today, None, None)
  {
  }

  // ---- the insert ----

  function InWindow(start: Date, end: Date): HaCandle -> bool {
    (r: HaCandle) => NotAfter(start, r.candle.tradeDate) && Before(r.candle.tradeDate, end)
  }

  function Keyed<K>(rows: seq<HaCandle>, key: HaCandle -> K): (r: seq<(K, HaCandle)>)
    ensures |r| == |rows|
  {
    seq(|rows|, i requires 0 <= i < |rows| => (key(rows[i]), rows[i]))
  }

  /** `insert_from_function(interval, table, start, end)`: the Heikin-Ashi rows of
      the width (`source`) dated start <= trade_date < end are inserted, a row whose
      key the table already holds being skipped; the new table and the count added.
      `key` is the table's unique key. */
  function InsertFromFunction<K>(table: map<K, HaCandle>, source: seq<HaCandle>, key: HaCandle -> K, start: Date, end: Date): (map<K, HaCandle>, nat) {
    InsertNew(table, Keyed(Filter(source, InWindow(start, end)), key))
  }

  /** The insert keeps every existing row, adds only rows of the source inside the
      window, and adds a row for every key of the source inside the window. */
  lemma InsertWithinWindow<K>(table: map<K, HaCandle>, source: seq<HaCandle>, key: HaCandle -> K, start: Date, end: Date)
    ensures var t := InsertFromFunction(table, source, key, start, end).0;
      && (forall k :: k in table ==> k in t && t[k] == table[k])
      && (forall k :: k in t && k !in table ==> t[k] in source && InWindow(start, end)(t[k]) && key(t[k]) == k)
      && (forall x :: x in source && InWindow(start, end)(x) ==> key(x) in t)
  {
    var rows := Filter(source, InWindow(start, end));
    var offered := Keyed(rows, key);
    var t := InsertNew(table, offered).0;
    InsertNewAppendOnly(table, offered);
    InsertNewFrom(table, offered);
    forall k | k in t && k !in table
      ensures t[k] in source && InWindow(start, end)(t[k]) && key(t[k]) == k
    {
      var i :| 0 <= i < |offered| && offered[i] == (k, t[k]);
      assert rows[i] == t[k];
    }
    forall x | x in source && InWindow(start, end)(x) ensures key(x) in t {
      FilterMember(source, InWindow(start, end), x);
      var i :| 0 <= i < |rows| && rows[i] == x;
      assert offered[i].0 == key(x);
    }
  }

  /** Running the population again over the same window adds nothing. */
  lemma InsertFromFunctionIdempotent<K>(table: map<K, HaCandle>, source: seq<HaCandle>, key: HaCandle -> K, start: Date, end: Date)
    ensures var once := InsertFromFunction(table, source, key, start, end).0;
      InsertFromFunction(once, source, key, start, end) == (once, 0)
  {
    InsertNewIdempotent(table, Keyed(Filter(source, InWindow(start, end)), key));
  }

  // ---- the script ----

  /** One `insert_from_function` call. */
  datatype Insert = Insert(interval: int, table: string, start: Date, end: Date)

  /** The inserts for a set of widths over a window: big into ha_big, small into
      ha_small, 1-minute into ha_1m, in that order. */
  function Inserts(iv: Intervals, start: Date, end: Date): (r: seq<Insert>)
    ensures r == [Insert(iv.big, "ha_big", start, end), Insert(iv.small, "ha_small", start, end), Insert(iv.oneM, "ha_1m", start, end)]
  {
    var targets := Targets(iv);
    seq(3, j requires 0 <= j < 3 => Insert(targets[j].0, targets[j].1, start, end))
  }

  /** The script's main block: widths, window, then one insert per target. A bad
      date argument or an overflowing default stops it before any insert. */
  method Populate(items: seq<Fetched>, today: Day, startArg: Option<string>, endArg: Option<string>)
    returns (r: Result<seq<Insert>, string>)
    ensures r.Err? <==> PopulateWindow(today, startArg, endArg).Err?
    ensures r.Ok? ==> var w := PopulateWindow(today, startArg, endArg).value;
      r.value == Inserts(GetStrategyIntervals(items), w.0, w.1)
  {
    var iv := GetStrategyIntervals(items);
    var end := EndOf(today, endArg);
    if end.Err? {
      return Err(end.error);
    }
    var start := StartOf(end.value, startArg);
    if start.Err? {
      return Err(start.error);
    }
    var targets := Targets(iv);
    var calls: seq<Insert> := [];
    for j := 0 to 3
      invariant calls == Inserts(iv, start.value, end.value)[..j]
    {
      calls := calls + [Insert(targets[j].0, targets[j].1, start.value, end.value)];
    }
    return Ok(calls);
  }
}
