/** The options bulk loader: each chunk of the CSV has its column names stripped,
    must carry an `option_type` column, keeps only the rows whose option type is
    P or C (any case, surrounding blanks ignored), gets the missing required columns
    filled with defaults, and is copied group by group into the monthly partition of
    each row's date. */
module OptionsLoad {
  import opened Wrappers
  import opened Text
  import opened Calendar
  import opened Seqs
  import opened Partitions
  import opened PartitionLoad
  import opened OptionsPartitions

  /** One CSV cell as pandas holds it: text, a number, a missing value (NaN), or a
      date parsed by `parse_dates`. */
  datatype Cell = Str(s: string) | Num(x: real) | Nan | At(d: Day)

  /** A chunk of the CSV: its header and its rows, one cell per header column. */
  datatype Chunk = Chunk(header: seq<string>, rows: seq<seq<Cell>>)

  /** A row ready for the copy: its date and the required columns in copy order. */
  datatype OptionRow = OptionRow(date: Day, values: seq<Cell>)

  /** What one chunk does: it stops the load, is skipped, or is copied. */
  datatype Outcome = Abort(message: string) | Skip | Copies(loads: seq<Load<OptionRow>>)

  /** The required columns, which are also the columns of the copy, in order. */
  const Columns: seq<string> := [
    "symbol", "date", "expiry", "strike", "option_type", "time",
    "open", "high", "low", "close", "volume", "oi", "option_nm"]

  const MissingTypeColumn: string := "CSV missing 'option_type' column"
  const MissingDateColumn: string := "KeyError: 'date'"
  const BadDate: string := "ValueError: date is not a calendar day"

  predicate NumericColumn(c: string) {
    c == "volume" || c == "oi" || c == "strike" || c == "open" || c == "high" || c == "low" || c == "close"
  }

  /** The fill value of an absent column: zero for the numeric ones, "" otherwise. */
  function DefaultCell(c: string): Cell {
    if NumericColumn(c) then Num(0.0) else Str("")
  }

  predicate Rectangular(header: seq<string>, rows: seq<seq<Cell>>) {
    forall i :: 0 <= i < |rows| ==> |rows[i]| == |header|
  }

  /** The first position of column c, as selecting a column by name finds it. */
  function Position(header: seq<string>, c: string): (r: Option<nat>)
    ensures r.None? <==> c !in header
    ensures r.Some? ==> r.value < |header| && header[r.value] == c
    ensures r.Some? ==> forall j :: 0 <= j < r.value ==> header[j] != c
  {
    if header == [] then None
    else if header[0] == c then Some(0)
    else match Position(header[1..], c)
      case None => None
      case Some(i) => Some(i + 1)
  }

  /** The cell of column c in a row, if the header has that column. */
  function Get(header: seq<string>, row: seq<Cell>, c: string): Option<Cell> {
    match Position(header, c)
    case None => None
    case Some(i) => if i < |row| then Some(row[i]) else None
  }

  /** `chunk.columns = [c.strip() for c in chunk.columns]`. */
  function StripHeader(header: seq<string>): (r: seq<string>)
    ensures |r| == |header|
  {
    seq(|header|, i requires 0 <= i < |header| => Strip(header[i]))
  }

  // ---- the option type filter ----

  /** `astype(str).str.strip()` of the option type: text is stripped; no other kind
      of cell can spell P or C, so it is left as it is. */
  function Normalise(t: nat, row: seq<Cell>): (r: seq<Cell>)
    requires t < |row|
    ensures |r| == |row|
  {
    match row[t]
    case Str(s) => row[t := Str(Strip(s))]
    case _ => row
  }

  function NormaliseAll(t: nat, rows: seq<seq<Cell>>): (r: seq<seq<Cell>>)
    requires forall i :: 0 <= i < |rows| ==> t < |rows[i]|
    ensures |r| == |rows|
  {
    seq(|rows|, i requires 0 <= i < |rows| => Normalise(t, rows[i]))
  }

  /** `_otype` in {"p", "c"}: the lower-cased option type is p or c. */
  predicate PutOrCall(c: Cell) {
    c.Str? && (Lower(c.s) == "p" || Lower(c.s) == "c")
  }

  predicate TypeKept(t: nat, row: seq<Cell>) {
    t < |row| && PutOrCall(row[t])
  }

  function KeepMask(t: nat): seq<Cell> -> bool {
    (row: seq<Cell>) => TypeKept(t, row)
  }

  /** A row survives the filter iff its option type, stripped and lower-cased, is p
      or c; the kept value is the stripped text, whose case is unchanged, so it is
      one of p, P, c, C. */
  lemma KeptExact(t: nat, row: seq<Cell>)
    requires t < |row|
    ensures TypeKept(t, Normalise(t, row)) <==>
      row[t].Str? && (Lower(Strip(row[t].s)) == "p" || Lower(Strip(row[t].s)) == "c")
    ensures TypeKept(t, Normalise(t, row)) ==>
      Normalise(t, row)[t] == Str(Strip(row[t].s)) &&
      Strip(row[t].s) in {"p", "P", "c", "C"}
    ensures forall j :: 0 <= j < |row| && j != t ==> Normalise(t, row)[j] == row[j]
  {
    if TypeKept(t, Normalise(t, row)) {
      var s := Strip(row[t].s);
      assert |s| == 1 && LowerChar(s[0]) in {'p', 'c'};
      assert s == [s[0]];
    }
  }

  // ---- filling the required columns ----

  /** The header after `for col in required_cols: if col not in chunk.columns: ...`
      has run over cols: each absent column is appended once. */
  function FilledHeader(header: seq<string>, cols: seq<string>): seq<string> {
    if cols == [] then header
    else
      var h := FilledHeader(header, cols[..|cols| - 1]);
      if cols[|cols| - 1] in h then h else h + [cols[|cols| - 1]]
  }

  /** A row after the same loop: the default of each appended column is appended. */
  function FilledRow(header: seq<string>, cols: seq<string>, row: seq<Cell>): seq<Cell> {
    if cols == [] then row
    else
      var h := FilledHeader(header, cols[..|cols| - 1]);
      var r := FilledRow(header, cols[..|cols| - 1], row);
      if cols[|cols| - 1] in h then r else r + [DefaultCell(cols[|cols| - 1])]
  }

  lemma {:induction false} PositionSnoc(header: seq<string>, x: string, c: string)
    ensures Position(header + [x], c) ==
      if c in header then Position(header, c) else if c == x then Some(|header|) else None
  {
    if header != [] {
      assert (header + [x])[1..] == header[1..] + [x];
      PositionSnoc(header[1..], x, c);
    }
  }

  /** After filling, a column present before keeps its cell, an absent required
      column holds its default, and the row still matches the header. */
  lemma {:induction false} FilledLookup(header: seq<string>, cols: seq<string>, row: seq<Cell>, c: string)
    requires |row| == |header|
    ensures |FilledRow(header, cols, row)| == |FilledHeader(header, cols)|
    ensures Get(FilledHeader(header, cols), FilledRow(header, cols, row), c) ==
      if c in header then Get(header, row, c)
      else if c in cols then Some(DefaultCell(c))
      else None
  {
    if cols != [] {
      var init := cols[..|cols| - 1];
      var x := cols[|cols| - 1];
      var h := FilledHeader(header, init);
      var r := FilledRow(header, init, row);
      FilledLookup(header, init, row, c);
      FilledLookup(header, init, row, x);
      assert c in cols <==> c in init || c == x;
      if x !in h {
        PositionSnoc(h, x, c);
      }
    }
  }

  /** The fill loop over the required columns, on the header and every row. */
  method FillMissing(header: seq<string>, rows: seq<seq<Cell>>) returns (h: seq<string>, rs: seq<seq<Cell>>)
    requires Rectangular(header, rows)
    ensures h == FilledHeader(header, Columns)
    ensures |rs| == |rows| && forall i :: 0 <= i < |rows| ==> rs[i] == FilledRow(header, Columns, rows[i])
  {
    h, rs := header, rows;
    for k := 0 to |Columns|
      invariant h == FilledHeader(header, Columns[..k])
      invariant |rs| == |rows| && forall i :: 0 <= i < |rows| ==> rs[i] == FilledRow(header, Columns[..k], rows[i])
    {
      assert Columns[..k + 1][..k] == Columns[..k];
      var col := Columns[k];
      if col !in h {
        var default := DefaultCell(col);
        rs := seq(|rs|, i requires 0 <= i < |rs| => rs[i] + [default]);
        h := h + [col];
      }
    }
    assert Columns[..|Columns|] == Columns;
  }

  /** `df.to_csv(columns=cols)`: the required columns, by name, in copy order. */
  function Project(header: seq<string>, row: seq<Cell>): (r: seq<Cell>)
    ensures |r| == |Columns|
  {
    seq(|Columns|, k requires 0 <= k < |Columns| =>
      match Get(header, row, Columns[k])
      case Some(v) => v
      case None => Nan)
  }

  // ---- dates and routing ----

  /** Every kept row holds a calendar day in the date column. */
  predicate Dated(rows: seq<seq<Cell>>, dc: nat) {
    forall i :: 0 <= i < |rows| ==> dc < |rows[i]| && rows[i][dc].At?
  }

  /** The rows as copied: filled, projected, and paired with their date. */
  function Prepare(header: seq<string>, rows: seq<seq<Cell>>, dc: nat): (r: seq<OptionRow>)
    requires Dated(rows, dc)
    ensures |r| == |rows|
  {
    seq(|rows|, i requires 0 <= i < |rows| =>
      OptionRow(rows[i][dc].d, Project(FilledHeader(header, Columns), FilledRow(header, Columns, rows[i]))))
  }

  /** `partition_name_for_date(dt)`. */
  function PartitionName(d: Day): string {
    MonthlyName("Nifty_options", d.year, d.month)
  }

  /** `ensure_partition_exists(dt)`: [Y-M-01, Y-(M+1)-01), or the next January 1st
      for December, with a date and a symbol index. */
  function EnsurePartition(d: Day): Partition {
    var name := PartitionName(d);
    var end := if d.month == 12 then Date(d.year + 1, 1, 1) else Date(d.year, d.month + 1, 1);
    Partition(name, "Nifty_options", Date(d.year, d.month, 1), end,
      [name + "_date_idx", name + "_symbol_idx"])
  }

  /** The loader ensures the very partition the partition script creates, which
      holds exactly the days of the row's month. */
  lemma EnsureAgreesWithScript(d: Day, e: Date)
    requires ValidDate(e)
    ensures EnsurePartition(d) == OptionsPartition(d.year, d.month)
    ensures Holds(EnsurePartition(d), e) <==> e.year == d.year && e.month == d.month
  {
    OptionsPartitionExact(d.year, d.month, d.year, d.month, e);
  }

  function PartKey(): OptionRow -> string {
    (r: OptionRow) => PartitionName(r.date)
  }

  function Ensure(): OptionRow -> Partition {
    (r: OptionRow) => EnsurePartition(r.date)
  }

  function DayOf(): OptionRow -> Date {
    (r: OptionRow) => r.date
  }

  lemma ConsistentRouting()
    ensures Consistent(PartKey(), Ensure(), DayOf())
  {
    forall a: OptionRow, b: OptionRow
      ensures Ensure()(a).name == PartKey()(a)
      ensures PartKey()(a) == PartKey()(b) ==> Holds(Ensure()(a), DayOf()(b))
    {
      EnsureAgreesWithScript(a.date, b.date);
      if PartKey()(a) == PartKey()(b) {
        MonthlyNameInjective("Nifty_options", a.date.year, a.date.month, b.date.year, b.date.month);
      }
    }
  }

  // ---- one chunk ----

  /** The kept rows of a chunk whose stripped header has the option type at t. */
  function Kept(chunk: Chunk, t: nat): seq<seq<Cell>>
    requires Rectangular(chunk.header, chunk.rows) && t < |chunk.header|
  {
    Filter(NormaliseAll(t, chunk.rows), KeepMask(t))
  }

  /** What the body of `for chunk in reader` does with one chunk. */
  function ChunkOutcome(chunk: Chunk): Outcome
    requires Rectangular(chunk.header, chunk.rows)
  {
    var h := StripHeader(chunk.header);
    match Position(h, "option_type")
    case None => Abort(MissingTypeColumn)
    case Some(t) =>
      var kept := Kept(chunk, t);
      if kept == [] then Skip
      else match Position(h, "date")
        case None => Abort(MissingDateColumn)
        case Some(dc) =>
          if !Dated(kept, dc) then Abort(BadDate)
          else Copies(GroupLoads(Prepare(h, kept, dc), PartKey(), Ensure()))
  }

  /** Filling the required columns of the kept rows and projecting them. */
  method PrepareRows(h: seq<string>, kept: seq<seq<Cell>>, dc: nat) returns (rows: seq<OptionRow>)
    requires Rectangular(h, kept) && Dated(kept, dc)
    ensures rows == Prepare(h, kept, dc)
  {
    var fh, filled := FillMissing(h, kept);
    rows := seq(|kept|, i requires 0 <= i < |kept| => OptionRow(kept[i][dc].d, Project(fh, filled[i])));
  }

  /** Normalising the option type of every row and keeping the put and call rows. */
  method KeepRows(chunk: Chunk, t: nat) returns (kept: seq<seq<Cell>>)
    requires Rectangular(chunk.header, chunk.rows) && t < |chunk.header|
    ensures kept == Kept(chunk, t)
    ensures Rectangular(StripHeader(chunk.header), kept)
  {
    kept := Filter(NormaliseAll(t, chunk.rows), KeepMask(t));
  }

  method LoadChunk(chunk: Chunk) returns (outcome: Outcome)
    requires Rectangular(chunk.header, chunk.rows)
    ensures outcome == ChunkOutcome(chunk)
  {
    var h := StripHeader(chunk.header);
    var typeColumn := Position(h, "option_type");
    if typeColumn.None? {
      return Abort(MissingTypeColumn);
    }
    var t := typeColumn.value;
    var kept := KeepRows(chunk, t);
    if kept == [] {
      return Skip;
    }
    var dateColumn := Position(h, "date");
    if dateColumn.None? {
      return Abort(MissingDateColumn);
    }
    var dc := dateColumn.value;
    if !Dated(kept, dc) {
      return Abort(BadDate);
    }
    var rows := PrepareRows(h, kept, dc);
    var loads := LoadGroups(rows, PartKey(), Ensure());
    return Copies(loads);
  }

  /** A copied row carries its own date and, for every required column, the chunk's
      cell of that column (the option type stripped), or the column's default when
      the chunk lacks it. */
  lemma PreparedValues(chunk: Chunk, t: nat, dc: nat, i: nat, k: nat)
    requires Rectangular(chunk.header, chunk.rows)
    requires Position(StripHeader(chunk.header), "option_type") == Some(t)
    requires Dated(Kept(chunk, t), dc) && i < |Kept(chunk, t)| && k < |Columns|
    ensures var h := StripHeader(chunk.header);
      var row := Kept(chunk, t)[i];
      Prepare(h, Kept(chunk, t), dc)[i].values[k] ==
        if Columns[k] in h then Get(h, row, Columns[k]).value else DefaultCell(Columns[k])
  {
    var h := StripHeader(chunk.header);
    var kept := Kept(chunk, t);
    assert kept[i] in NormaliseAll(t, chunk.rows);
    FilledLookup(h, Columns, kept[i], Columns[k]);
  }

  /** Every load of a copied chunk goes into the partition it ensured, and only with
      rows of that partition's month. */
  lemma ChunkRouted(chunk: Chunk, j: nat)
    requires Rectangular(chunk.header, chunk.rows)
    requires ChunkOutcome(chunk).Copies? && j < |ChunkOutcome(chunk).loads|
    ensures Routed(ChunkOutcome(chunk).loads[j], PartKey(), DayOf())
  {
    var h := StripHeader(chunk.header);
    var t := Position(h, "option_type").value;
    var dc := Position(h, "date").value;
    ConsistentRouting();
    GroupLoadsRouted(Prepare(h, Kept(chunk, t), dc), PartKey(), Ensure(), DayOf(), j);
  }

  /** Every kept row of a copied chunk is copied, by the one load whose target is
      the partition of its month. */
  lemma ChunkCovers(chunk: Chunk, i: nat) returns (j: nat)
    requires Rectangular(chunk.header, chunk.rows)
    requires ChunkOutcome(chunk).Copies?
    requires i < |Kept(chunk, Position(StripHeader(chunk.header), "option_type").value)|
    ensures var h := StripHeader(chunk.header);
      var t := Position(h, "option_type").value;
      var dc := Position(h, "date").value;
      var x := Prepare(h, Kept(chunk, t), dc)[i];
      var loads := ChunkOutcome(chunk).loads;
      j < |loads| && loads[j].target == PartitionName(x.date) && x in loads[j].rows &&
      forall l :: 0 <= l < |loads| && l != j ==> loads[l].target != PartitionName(x.date)
  {
    var h := StripHeader(chunk.header);
    var t := Position(h, "option_type").value;
    var dc := Position(h, "date").value;
    j := GroupLoadsCover(Prepare(h, Kept(chunk, t), dc), PartKey(), Ensure(), i);
  }

  // ---- the chunk loop ----

  /** The outcome of each chunk, in order. */
  function Outcomes(chunks: seq<Chunk>): (os: seq<Outcome>)
    requires forall i :: 0 <= i < |chunks| ==> Rectangular(chunks[i].header, chunks[i].rows)
    ensures |os| == |chunks|
  {
    seq(|chunks|, i requires 0 <= i < |chunks| => ChunkOutcome(chunks[i]))
  }

  lemma OutcomesPrefix(chunks: seq<Chunk>, n: nat)
    requires forall i :: 0 <= i < |chunks| ==> Rectangular(chunks[i].header, chunks[i].rows)
    requires n <= |chunks|
    ensures Outcomes(chunks[..n]) == Outcomes(chunks)[..n]
  {
  }

  /** The loads of the chunks processed so far and the message that stopped the
      load, if any, given the outcome of each chunk: after an abort, no later chunk
      is read. */
  function RunOf(os: seq<Outcome>): (seq<Load<OptionRow>>, Option<string>) {
    if os == [] then ([], None)
    else
      var before := RunOf(os[..|os| - 1]);
      if before.1.Some? then before
      else match os[|os| - 1]
        case Abort(m) => (before.0, Some(m))
        case Skip => before
        case Copies(loads) => (before.0 + loads, None)
  }

  /** The loads and the stopping message of the whole chunk loop. */
  function Run(chunks: seq<Chunk>): (seq<Load<OptionRow>>, Option<string>)
    requires forall i :: 0 <= i < |chunks| ==> Rectangular(chunks[i].header, chunks[i].rows)
  {
    RunOf(Outcomes(chunks))
  }

  /** `bulk_load_options`: chunk after chunk; the loads of earlier chunks are
      committed before a later chunk stops the load. */
  method BulkLoadOptions(chunks: seq<Chunk>) returns (loads: seq<Load<OptionRow>>, error: Option<string>)
    requires forall i :: 0 <= i < |chunks| ==> Rectangular(chunks[i].header, chunks[i].rows)
    ensures (loads, error) == Run(chunks)
  {
    ghost var os := Outcomes(chunks);
    loads, error := [], None;
    for i := 0 to |chunks|
      invariant (loads, None) == RunOf(os[..i])
      invariant error == None
    {
      assert os[..i + 1][..i] == os[..i];
      var outcome := LoadChunk(chunks[i]);
      assert outcome == os[i];
      match outcome
      case Abort(m) =>
        error := Some(m);
        AbortStops(os, i + 1);
        return;
      case Skip =>
      case Copies(more) =>
        loads := loads + more;
    }
    assert os[..|chunks|] == os;
  }

  /** Once an outcome has stopped the load, later outcomes change nothing. */
  lemma {:induction false} AbortStops(os: seq<Outcome>, n: nat)
    requires n <= |os| && RunOf(os[..n]).1.Some?
    ensures RunOf(os) == RunOf(os[..n])
    decreases |os|
  {
    if n < |os| {
      assert os[..|os| - 1][..n] == os[..n];
      AbortStops(os[..|os| - 1], n);
    } else {
      assert os[..n] == os;
    }
  }

  /** Once a chunk has stopped the load, later chunks change nothing. */
  lemma FirstAbortStops(chunks: seq<Chunk>, n: nat)
    requires forall i :: 0 <= i < |chunks| ==> Rectangular(chunks[i].header, chunks[i].rows)
    requires n <= |chunks| && Run(chunks[..n]).1.Some?
    ensures Run(chunks) == Run(chunks[..n])
  {
    OutcomesPrefix(chunks, n);
    AbortStops(Outcomes(chunks), n);
  }

  /** A run stops iff some outcome is an abort, and then with the first abort's
      message and the loads of the outcomes before it. */
  lemma {:induction false} FirstAbort(os: seq<Outcome>) returns (i: nat)
    requires RunOf(os).1.Some?
    ensures i < |os| && os[i].Abort?
    ensures forall j :: 0 <= j < i ==> !os[j].Abort?
    ensures RunOf(os).1 == Some(os[i].message)
    ensures RunOf(os).0 == RunOf(os[..i]).0
  {
    var init := os[..|os| - 1];
    if RunOf(init).1.Some? {
      i := FirstAbort(init);
      assert init[..i] == os[..i];
    } else {
      i := |os| - 1;
      NoAbort(init);
    }
  }

  /** A run ends without an error iff no outcome is an abort. */
  lemma {:induction false} NoAbort(os: seq<Outcome>)
    ensures RunOf(os).1.None? <==> forall j :: 0 <= j < |os| ==> !os[j].Abort?
  {
    if os != [] {
      var init := os[..|os| - 1];
      NoAbort(init);
      if RunOf(os).1.Some? && RunOf(init).1.Some? {
        var j :| 0 <= j < |init| && init[j].Abort?;
        assert os[j] == init[j];
      }
    }
  }

  /** The load stops iff some chunk aborts, and it then reports the first such
      chunk's message. */
  lemma RunErrorExact(chunks: seq<Chunk>) returns (i: nat)
    requires forall i :: 0 <= i < |chunks| ==> Rectangular(chunks[i].header, chunks[i].rows)
    requires Run(chunks).1.Some?
    ensures i < |chunks| && ChunkOutcome(chunks[i]).Abort?
    ensures forall j :: 0 <= j < i ==> !ChunkOutcome(chunks[j]).Abort?
    ensures Run(chunks).1 == Some(ChunkOutcome(chunks[i]).message)
    ensures Run(chunks).0 == Run(chunks[..i]).0
  {
    var os := Outcomes(chunks);
    i := FirstAbort(os);
    OutcomesPrefix(chunks, i);
    forall j | 0 <= j < i ensures !ChunkOutcome(chunks[j]).Abort? {
      assert os[j] == ChunkOutcome(chunks[j]);
    }
  }

  /** A run without an error met no aborting chunk. */
  lemma NoErrorNoAbort(chunks: seq<Chunk>)
    requires forall i :: 0 <= i < |chunks| ==> Rectangular(chunks[i].header, chunks[i].rows)
    ensures Run(chunks).1.None? <==> forall j :: 0 <= j < |chunks| ==> !ChunkOutcome(chunks[j]).Abort?
  {
    var os := Outcomes(chunks);
    NoAbort(os);
    assert forall j :: 0 <= j < |chunks| ==> os[j] == ChunkOutcome(chunks[j]);
  }
}
