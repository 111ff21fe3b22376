/** The upload side of the web front end (app.py): the extension check, the
    progress arithmetic, and `process_uploaded_csv`, which replaces
    strategy_settings with the uploaded lines, clears the previous results
    and calls the strategy procedure, reporting progress in the session. */
module AppUpload {

  import opened Wrappers
  import opened FileNames
  import opened Settings
  import CsvUploader

  const Extensions: set<string> := {"xlsx", "xls", "csv"}

  /** `allowed_file` of the web front end. */
  predicate AllowedUpload(name: string) {
    AllowedFile(name, Extensions)
  }

  /** Every file the standalone uploader accepts is accepted here too. */
  lemma CsvUploadsAccepted(name: string)
    ensures CsvUploader.AllowedCsv(name) ==> AllowedUpload(name)
  {
    AllowedFileMonotone(name, CsvUploader.Extensions, Extensions);
  }

  // ---- progress ----

  /** Progress after inserting line i of n: `30 + int((i + 1) / n * 30)`,
      with the division taken exactly. */
  function Progress(i: nat, n: nat): int
    requires i < n
  {
    30 + (30 * (i + 1)) / n
  }

  lemma MulMonotone(n: int, x: int, y: int)
    ensures n >= 0 && x >= y ==> n * x >= n * y
  {
    if n >= 0 && x >= y {
      assert n * x - n * y == n * (x - y);
    }
  }

  lemma DivMonotone(a: nat, b: nat, n: nat)
    requires a <= b && n > 0
    ensures a / n <= b / n
  {
    var qa, qb := a / n, b / n;
    assert n * qa + a % n == a;
    assert n * qb + b % n == b;
    assert n * (qb + 1) == n * qb + n;
    MulMonotone(n, qa, qb + 1);
  }

  /** Per-line progress stays within [30, 60]. */
  lemma ProgressBounds(i: nat, n: nat)
    requires i < n
    ensures 30 <= Progress(i, n) <= 60
  {
    DivMonotone(30 * (i + 1), 30 * n, n);
    assert (30 * n) / n == 30;
  }

  /** Progress never goes back while lines are inserted. */
  lemma ProgressMonotone(i: nat, j: nat, n: nat)
    requires i <= j < n
    ensures Progress(i, n) <= Progress(j, n)
  {
    DivMonotone(30 * (i + 1), 30 * (j + 1), n);
  }

  /** The last line brings progress to exactly 60. */
  lemma ProgressFinal(n: nat)
    requires n > 0
    ensures Progress(n - 1, n) == 60
  {
    assert (30 * n) / n == 30;
  }

  // ---- process_uploaded_csv ----

  /** The committed effects on the database, in order. */
  datatype Effect =
    | ClearSettings
    | InsertSettings(values: seq<Value>)
    | ClearResults
    | RunStrategy

  /** Which database transaction fails, if any; a raised exception of any kind. */
  datatype Fault = NoFault | SettingsFault | ClearResultsFault | StrategyFault

  datatype Status = Success | Error

  /** The line has every column the INSERT reads (`row[...]` raises KeyError otherwise). */
  predicate HasAllColumns(line: CsvUploader.CsvRow) {
    forall c: Column :: Name(c) in line
  }

  predicate AllHaveColumns(lines: seq<CsvUploader.CsvRow>) {
    forall i :: 0 <= i < |lines| ==> HasAllColumns(lines[i])
  }

  /** The 30 INSERT parameters of a line, in column order. */
  function InsertValues(line: CsvUploader.CsvRow): (r: seq<Value>)
    requires HasAllColumns(line)
    ensures |r| == |SettingsColumns|
  {
    seq(|SettingsColumns|, k requires 0 <= k < |SettingsColumns| => line[Name(SettingsColumns[k])])
  }

  function Inserts(lines: seq<CsvUploader.CsvRow>): (r: seq<Effect>)
    requires AllHaveColumns(lines)
    ensures |r| == |lines|
  {
    seq(|lines|, i requires 0 <= i < |lines| => InsertSettings(InsertValues(lines[i])))
  }

  /** The progress values reported while `n` lines are inserted. */
  function LineProgress(n: nat): (r: seq<int>)
    ensures |r| == n
  {
    seq(n, i requires 0 <= i < n => Progress(i, n))
  }

  /** The database: the log of committed effects. Work done in a connection
      that is closed before `commit` is discarded. */
  class Database {
    var committed: seq<Effect>

    constructor(initial: seq<Effect>)
      ensures committed == initial
    {
      committed := initial;
    }
  }

  /** The session's progress record; `reported` keeps every value ever set. */
  class Session {
    var step: string
    var progress: int
    ghost var reported: seq<int>

    constructor()
      ensures step == "idle" && progress == 0 && reported == []
    {
      step, progress := "idle", 0;
      reported := [];
    }

    method Update(s: string, p: int)
      modifies this
      ensures step == s && progress == p && reported == old(reported) + [p]
    {
      step, progress := s, p;
      reported := reported + [p];
    }
  }

  /** The insert loop of the first transaction: builds the pending effects
      line by line, reporting progress after each; stops at the first line
      lacking a column. */
  method InsertLines(session: Session, lines: seq<CsvUploader.CsvRow>)
    returns (complete: bool, pending: seq<Effect>)
    modifies session
    ensures complete <==> AllHaveColumns(lines)
    ensures complete ==> pending == Inserts(lines)
    ensures complete ==> session.reported == old(session.reported) + LineProgress(|lines|)
  {
    pending := [];
    var n := |lines|;
    for i := 0 to n
      invariant forall j :: 0 <= j < i ==> HasAllColumns(lines[j])
      invariant pending == Inserts(lines[..i])
      invariant session.reported == old(session.reported) + LineProgress(n)[..i]
    {
      if !HasAllColumns(lines[i]) {
        return false, pending;
      }
      assert Inserts(lines[..i + 1]) == Inserts(lines[..i]) + [InsertSettings(InsertValues(lines[i]))];
      pending := pending + [InsertSettings(InsertValues(lines[i]))];
      session.Update("inserting_strategies", Progress(i, n));
      assert LineProgress(n)[..i + 1] == LineProgress(n)[..i] + [Progress(i, n)];
    }
    assert lines[..n] == lines;
    assert LineProgress(n)[..n] == LineProgress(n);
    return true, pending;
  }

  /** `process_uploaded_csv`: the three transactions run in order; the first
      failure (a missing column or a database fault) ends the run with status
      error and progress 0, keeping what earlier transactions committed. */
  method ProcessUploadedCsv(db: Database, session: Session, lines: seq<CsvUploader.CsvRow>, fault: Fault)
    returns (status: Status)
    modifies db, session
    ensures status == Success <==> AllHaveColumns(lines) && fault == NoFault
    ensures status == Success ==>
              db.committed == old(db.committed) + [ClearSettings] + Inserts(lines) + [ClearResults, RunStrategy]
    ensures status == Success ==>
              session.reported == old(session.reported) + [10, 20, 30] + LineProgress(|lines|) + [70, 75, 90, 100]
    ensures status == Success ==> session.step == "complete" && session.progress == 100
    ensures status == Error ==> session.step == "error" && session.progress == 0
    ensures status == Error && (!AllHaveColumns(lines) || fault == SettingsFault) ==>
              db.committed == old(db.committed)
    ensures status == Error && AllHaveColumns(lines) && fault == ClearResultsFault ==>
              db.committed == old(db.committed) + [ClearSettings] + Inserts(lines)
    ensures status == Error && AllHaveColumns(lines) && fault == StrategyFault ==>
              db.committed == old(db.committed) + [ClearSettings] + Inserts(lines) + [ClearResults]
  {
    session.Update("database_prep", 10);
    // first connection: replace strategy_settings
    session.Update("clearing_data", 20);
    session.Update("inserting_strategies", 30);
    var complete, inserts := InsertLines(session, lines);
    if !complete || fault == SettingsFault {
      session.Update("error", 0);
      return Error;
    }
    db.committed := db.committed + [ClearSettings] + inserts;
    session.Update("running_backtest", 70);
    // second connection: clear previous results
    if fault == ClearResultsFault {
      session.Update("error", 0);
      return Error;
    }
    db.committed := db.committed + [ClearResults];
    session.Update("running_strategy", 75);
    // third connection: run the strategy
    if fault == StrategyFault {
      session.Update("error", 0);
      return Error;
    }
    db.committed := db.committed + [RunStrategy];
    session.Update("processing_results", 90);
    session.Update("complete", 100);
    return Success;
  }

  /** On success, the settings are cleared before the lines are inserted and the
      results are cleared before the strategy runs. */
  lemma SuccessOrder(lines: seq<CsvUploader.CsvRow>, log: seq<Effect>)
    requires AllHaveColumns(lines)
    ensures var after := log + [ClearSettings] + Inserts(lines) + [ClearResults, RunStrategy];
      && after[|log|] == ClearSettings
      && (forall i :: |log| < i <= |log| + |lines| ==> after[i].InsertSettings?)
      && after[|after| - 2] == ClearResults && after[|after| - 1] == RunStrategy
  {
  }

  /** The reported progress never decreases on a successful run and ends at 100. */
  lemma SuccessProgressMonotone(n: nat)
    ensures var r := [10, 20, 30] + LineProgress(n) + [70, 75, 90, 100];
      (forall i, j :: 0 <= i <= j < |r| ==> r[i] <= r[j]) && r[|r| - 1] == 100
  {
    var r := [10, 20, 30] + LineProgress(n) + [70, 75, 90, 100];
    forall i | 3 <= i < n + 3 ensures 30 <= r[i] <= 60 {
      ProgressBounds(i - 3, n);
    }
    forall i, j | 0 <= i <= j < |r| ensures r[i] <= r[j] {
      if 3 <= i && j < n + 3 {
        ProgressMonotone(i - 3, j - 3, n);
      }
    }
  }
}
