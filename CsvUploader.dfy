/** The standalone strategy-settings uploader (csv_uploader.py): the
    extension check, the required-column check of `upload_file`, and
    `confirm_insert`, which clears strategy_settings and upserts one row per
    CSV line, filling absent columns with defaults. */
module CsvUploader {

  import opened Wrappers
  import opened Text
  import opened Seqs
  import opened KeyedTable
  import opened FileNames
  import opened Settings

  const Extensions: set<string> := {"csv"}

  /** `allowed_file` of this uploader. */
  predicate AllowedCsv(name: string) {
    AllowedFile(name, Extensions)
  }

  /** An uploaded CSV line: header name to cell. */
  type CsvRow = map<string, Value>

  const RequiredColumns: seq<string> := ["strategy_name", "big_candle_tf", "small_candle_tf", "from_date", "to_date"]

  function Absent(columns: seq<string>): string -> bool {
    c => c !in columns
  }

  /** `missing_cols`: the required columns the header lacks, in required order. */
  function MissingColumns(columns: seq<string>): seq<string> {
    Filter(RequiredColumns, Absent(columns))
  }

  /** A column is reported iff it is required and absent. */
  lemma MissingColumnsExact(columns: seq<string>, c: string)
    ensures c in MissingColumns(columns) <==> c in RequiredColumns && c !in columns
  {
    if c in RequiredColumns && c !in columns {
      var k :| 0 <= k < |RequiredColumns| && RequiredColumns[k] == c;
      assert Absent(columns)(RequiredColumns[k]);
    }
  }

  /** The upload is rejected iff some required column is absent. */
  lemma RejectedIffMissing(columns: seq<string>)
    ensures MissingColumns(columns) == [] <==> forall r :: r in RequiredColumns ==> r in columns
  {
    forall r | r in RequiredColumns
      ensures r in MissingColumns(columns) <==> r !in columns
    {
      MissingColumnsExact(columns, r);
    }
  }

  /** The fallback of `row.get(column, default)` for the line at position `i`. */
  function Default(c: Column, i: nat): Value {
    match c
    case StrategyName => Str("strategy_" + NatToString(i + 1))
    case BigCandleTf => Num(15.0)
    case SmallCandleTf => Num(5.0)
    case PreferredBreakoutType => Str("full_candle_breakout")
    case BreakoutThresholdPct => Num(60.0)
    case OptionEntryPriceCap => Num(80.0)
    case HedgeEntryPriceCap => Num(50.0)
    case NumEntryLegs => Num(4.0)
    case NumHedgeLegs => Num(1.0)
    case SlPercentage => Num(20.0)
    case EodTime => Str("15:20:00")
    case NoOfLots => Num(1.0)
    case LotSize => Num(75.0)
    case HedgeExitEntryRatio => Num(50.0)
    case HedgeExitMultiplier => Num(3.0)
    case LegProfitPct => Num(84.0)
    case PortfolioProfitTargetPct => Num(2.0)
    case PortfolioStopLossPct => Num(2.0)
    case PortfolioCapital => Num(900000.0)
    case MaxReentryRounds => Num(3.0)
    case SlType => Str("regular_system_sl")
    case BoxSlTriggerPct => Num(25.0)
    case BoxSlHardPct => Num(35.0)
    case ReentryBreakoutType => Str("full_candle_breakout")
    case OneMCandleTf => Num(1.0)
    case EntryCandle => Num(1.0)
    case SwitchPct => Num(20.0)
    case WidthSlPct => Num(40.0)
    case FromDate => Str("2025-01-01")
    case ToDate => Str("2025-01-31")
  }

  /** `strategy_data` for the line at position `i`: every column of the table,
      taken from the line when its header has the column. */
  function StrategyData(i: nat, row: CsvRow): (d: Row)
    ensures Complete(d)
  {
    AllColumnsListed();
    map c | c in SettingsColumns :: if Name(c) in row then row[Name(c)] else Default(c, i)
  }

  /** Defaults are used exactly for the columns the CSV lacks; the columns it
      has are stored as read, and a missing name becomes `strategy_{i+1}`. */
  lemma DefaultsOnlyForAbsent(i: nat, row: CsvRow, c: Column)
    ensures Name(c) in row ==> StrategyData(i, row)[c] == row[Name(c)]
    ensures Name(c) !in row ==> StrategyData(i, row)[c] == Default(c, i)
    ensures "strategy_name" !in row ==>
              StrategyData(i, row)[StrategyName] == Str("strategy_" + NatToString(i + 1))
  {
  }

  /** Headers that are not table columns are ignored. */
  lemma ExtraColumnsIgnored(i: nat, a: CsvRow, b: CsvRow)
    requires forall c: Column :: (Name(c) in a <==> Name(c) in b)
    requires forall c: Column :: Name(c) in a ==> a[Name(c)] == b[Name(c)]
    ensures StrategyData(i, a) == StrategyData(i, b)
  {
  }

  /** Lines without a strategy_name get distinct generated names. */
  lemma DefaultNamesDistinct(i: nat, j: nat)
    requires i != j
    ensures Default(StrategyName, i) != Default(StrategyName, j)
  {
    var p := "strategy_";
    if Default(StrategyName, i) == Default(StrategyName, j) {
      assert (p + NatToString(i + 1))[|p|..] == NatToString(i + 1);
      assert (p + NatToString(j + 1))[|p|..] == NatToString(j + 1);
      NatToStringInjective(i + 1, j + 1);
    }
  }

  /** `tuple(strategy_data.values())`: the dict is written in INSERT column
      order, so the k-th parameter is the k-th column's value. */
  function Parameters(d: Row): (t: seq<Value>)
    requires Complete(d)
  {
    seq(|SettingsColumns|, k requires 0 <= k < |SettingsColumns| => d[SettingsColumns[k]])
  }

  /** The column list names every column once, so the positional
      parameters determine the stored row. */
  lemma ParametersDetermineRow(d1: Row, d2: Row)
    requires Complete(d1) && Complete(d2)
    requires Parameters(d1) == Parameters(d2)
    ensures |Parameters(d1)| == 30
    ensures d1 == d2
  {
    forall c: Column ensures d1[c] == d2[c] {
      SettingsColumnsComplete(c);
      var k :| 0 <= k < 30 && SettingsColumns[k] == c;
      assert Parameters(d1)[k] == Parameters(d2)[k];
    }
  }

  /** The upsert key and row of the line at position `i`. */
  function Entry(i: nat, row: CsvRow): (Value, Row) {
    (StrategyData(i, row)[StrategyName], StrategyData(i, row))
  }

  function Entries(rows: seq<CsvRow>): (r: seq<(Value, Row)>)
    ensures |r| == |rows|
  {
    seq(|rows|, i requires 0 <= i < |rows| => Entry(i, rows[i]))
  }

  /** strategy_settings after the DELETE and the per-line upserts. */
  function Stored(rows: seq<CsvRow>): map<Value, Row> {
    UpsertAll(map[], Entries(rows))
  }

  /** Each stored strategy holds the data of the LAST line carrying its name,
      and only names of lines are stored. */
  lemma LastDuplicateWins(rows: seq<CsvRow>, i: nat)
    requires i < |rows|
    requires forall j :: i < j < |rows| ==> Entry(j, rows[j]).0 != Entry(i, rows[i]).0
    ensures Entry(i, rows[i]).0 in Stored(rows)
    ensures Stored(rows)[Entry(i, rows[i]).0] == StrategyData(i, rows[i])
  {
    var es := Entries(rows);
    var key := Entry(i, rows[i]).0;
    assert es[i] == Entry(i, rows[i]);
    assert forall j :: i < j < |es| ==> es[j].0 != key by {
      forall j | i < j < |es| ensures es[j].0 != key {
        assert es[j] == Entry(j, rows[j]);
      }
    }
    assert key in KeysOf(es);
    UpsertLastWins(map[], es, key);
  }

  /** Every stored key is the name of some line. */
  lemma StoredKeys(rows: seq<CsvRow>, k: Value)
    ensures k in Stored(rows) <==> exists i :: 0 <= i < |rows| && Entry(i, rows[i]).0 == k
  {
    UpsertLastWins(map[], Entries(rows), k);
    if exists i :: 0 <= i < |rows| && Entry(i, rows[i]).0 == k {
      var i :| 0 <= i < |rows| && Entry(i, rows[i]).0 == k;
      assert Entries(rows)[i].0 == k;
    }
  }

  datatype ConfirmOutcome = InvalidRequest | NoCsvFound | Inserted(count: nat) | Failed

  /** Where the database work of `confirm_insert` raises, if it does: reading the
      CSV or the DELETE (`AtDelete`), or the upsert of line `line`. The driver and
      the database are outside the model, so this is a parameter. */
  datatype Fault = NoFault | AtDelete | AtLine(line: nat)

  /** The strategy_settings table. */
  class SettingsTable {
    var rows: map<Value, Row>

    constructor(initial: map<Value, Row>)
      ensures rows == initial
    {
      rows := initial;
    }
  }

  /** Upserting one more line adds its data under its name. */
  lemma StoredStep(lines: seq<CsvRow>, i: nat, data: Row)
    requires i < |lines| && data == StrategyData(i, lines[i])
    ensures UpsertAll(map[], Entries(lines)[..i + 1]) == UpsertAll(map[], Entries(lines)[..i])[data[StrategyName] := data]
  {
    assert Entries(lines)[..i + 1] == Entries(lines)[..i] + [Entry(i, lines[i])];
    UpsertAllSnoc(map[], Entries(lines)[..i], Entry(i, lines[i]));
  }

  /** `confirm_insert`. The form's confirm field, the most recently uploaded CSV
      (`None` when the upload folder holds none) and where the database work
      raises are parameters. The work runs in one transaction: the DELETE and the
      upserts reach the table only at the commit, and an exception rolls them back
      and is reported. */
  method ConfirmInsert(table: SettingsTable, confirm: string, latest: Option<seq<CsvRow>>, fault: Fault)
    returns (outcome: ConfirmOutcome)
    modifies table
    ensures confirm != "yes" ==> outcome == InvalidRequest && table.rows == old(table.rows)
    ensures confirm == "yes" && latest.None? ==> outcome == NoCsvFound && table.rows == old(table.rows)
    ensures confirm == "yes" && latest.Some? && (fault.AtDelete? || (fault.AtLine? && fault.line < |latest.value|)) ==>
              outcome == Failed && table.rows == old(table.rows)
    ensures confirm == "yes" && latest.Some? && (fault.NoFault? || (fault.AtLine? && fault.line >= |latest.value|)) ==>
              outcome == Inserted(|latest.value|) && table.rows == Stored(latest.value)
  {
    if confirm != "yes" {
      return InvalidRequest;
    }
    if latest.None? {
      return NoCsvFound;
    }
    if fault.AtDelete? {
      return Failed;
    }
    var lines := latest.value;
    var pending: map<Value, Row> := map[];
    for i := 0 to |lines|
      invariant pending == UpsertAll(map[], Entries(lines)[..i])
      invariant fault.AtLine? ==> fault.line >= i
      invariant table.rows == old(table.rows)
    {
      if fault == AtLine(i) {
        return Failed;
      }
      var data := StrategyData(i, lines[i]);
      StoredStep(lines, i, data);
      pending := pending[data[StrategyName] := data];
    }
    assert Entries(lines)[..|lines|] == Entries(lines);
    table.rows := pending;
    return Inserted(|lines|);
  }
}
