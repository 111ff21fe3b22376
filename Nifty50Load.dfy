/** The Nifty50 bulk loader: the partition name of a day under yearly or monthly
    partitioning (any other mode is a ValueError), the partition ensured for a day,
    and the chunk loop that routes every row to the partition of its own date. */
module Nifty50Load {
  import opened Wrappers
  import opened Text
  import opened Calendar
  import opened Partitions
  import opened PartitionLoad
  import opened Nifty50Partitions

  /** A row of the spot CSV, in the column order of the copy. */
  datatype SpotRow = SpotRow(
    date: Day, time: string, open: real, high: real, low: real, close: real,
    volume: real, oi: real, optionNm: string)

  datatype Mode = Yearly | Monthly

  function ParseMode(partitioning: string): (r: Option<Mode>)
    ensures r == Some(Yearly) <==> partitioning == "yearly"
    ensures r == Some(Monthly) <==> partitioning == "monthly"
    ensures r == None <==> partitioning != "yearly" && partitioning != "monthly"
  {
    if partitioning == "yearly" then Some(Yearly)
    else if partitioning == "monthly" then Some(Monthly)
    else None
  }

  const ModeError: string := "partitioning must be 'yearly' or 'monthly'"

  /** The partition name of a day under a known mode. */
  function KeyOf(mode: Mode, d: Day): string {
    match mode
    case Yearly => YearlyName("Nifty50_y", d.year)
    case Monthly => MonthlyName("Nifty50", d.year, d.month)
  }

  /** `partition_name_for_date(dt, partitioning)`. */
  function PartitionNameForDate(d: Day, partitioning: string): (r: Result<string, string>)
    ensures r.Err? <==> ParseMode(partitioning).None?
    ensures r.Ok? ==> r.value == KeyOf(ParseMode(partitioning).value, d)
  {
    match ParseMode(partitioning)
    case None => Err(ModeError)
    case Some(mode) => Ok(KeyOf(mode, d))
  }

  /** Two days share a partition name iff they share the year (yearly) or the year and
      month (monthly). */
  lemma KeyOfExact(mode: Mode, a: Day, b: Day)
    ensures KeyOf(mode, a) == KeyOf(mode, b) <==>
      a.year == b.year && (mode == Monthly ==> a.month == b.month)
  {
    if KeyOf(mode, a) == KeyOf(mode, b) {
      match mode
      case Yearly => YearlyNameInjective("Nifty50_y", a.year, b.year);
      case Monthly => MonthlyNameInjective("Nifty50", a.year, a.month, b.year, b.month);
    }
  }

  /** `ensure_partition_exists(dt, partitioning)` under a known mode: the year
      [Y-01-01, (Y+1)-01-01) or the month [Y-M-01, first of the next month), with a
      date index. */
  function EnsurePartition(d: Day, mode: Mode): Partition {
    var name := KeyOf(mode, d);
    match mode
    case Yearly => Partition(name, "Nifty50", Date(d.year, 1, 1), Date(d.year + 1, 1, 1), [name + "_date_idx"])
    case Monthly => Partition(name, "Nifty50", FirstOfMonth(d.year, d.month), NextMonthStart(d.year, d.month), [name + "_date_idx"])
  }

  /** The loader's yearly partition is the one the yearly partition script creates. */
  lemma YearlyAgreesWithScript(d: Day)
    ensures EnsurePartition(d, Yearly) == YearPartition(d.year)
  {
  }

  /** The partition ensured for a day holds exactly the days with the same partition
      name. */
  lemma EnsurePartitionExact(mode: Mode, a: Day, b: Day)
    ensures EnsurePartition(a, mode).name == KeyOf(mode, a)
    ensures Holds(EnsurePartition(a, mode), b) <==> KeyOf(mode, a) == KeyOf(mode, b)
  {
    KeyOfExact(mode, a, b);
    match mode
    case Yearly => YearBoundsExact(a.year, b);
    case Monthly => MonthBoundsExact(a.year, a.month, b);
  }

  function PartKey(mode: Mode): SpotRow -> string {
    (r: SpotRow) => KeyOf(mode, r.date)
  }

  function Ensure(mode: Mode): SpotRow -> Partition {
    (r: SpotRow) => EnsurePartition(r.date, mode)
  }

  function DayOf(): SpotRow -> Date {
    (r: SpotRow) => r.date
  }

  lemma ConsistentRouting(mode: Mode)
    ensures Consistent(PartKey(mode), Ensure(mode), DayOf())
  {
    forall a: SpotRow, b: SpotRow
      ensures Ensure(mode)(a).name == PartKey(mode)(a)
      ensures PartKey(mode)(a) == PartKey(mode)(b) ==> Holds(Ensure(mode)(a), DayOf()(b))
    {
      EnsurePartitionExact(mode, a.date, b.date);
    }
  }

  /** The loads of all chunks, chunk after chunk. */
  function AllLoads(chunks: seq<seq<SpotRow>>, mode: Mode): seq<Load<SpotRow>> {
    ChunkLoads(chunks, PartKey(mode), Ensure(mode))
  }

  /** `bulk_load(csv_path, partitioning)`: each chunk in turn is grouped and loaded.
      Under an unknown mode, naming the first row of the first non-empty chunk raises
      ValueError, before anything is copied. */
  method BulkLoad(chunks: seq<seq<SpotRow>>, partitioning: string)
    returns (loads: seq<Load<SpotRow>>, error: Option<string>)
    ensures ParseMode(partitioning).Some? ==>
      loads == AllLoads(chunks, ParseMode(partitioning).value) && error == None
    ensures ParseMode(partitioning).None? ==>
      loads == [] && (error == Some(ModeError) <==> exists i :: 0 <= i < |chunks| && chunks[i] != [])
    ensures error == None || error == Some(ModeError)
  {
    loads, error := [], None;
    for i := 0 to |chunks|
      invariant ParseMode(partitioning).Some? ==> loads == AllLoads(chunks[..i], ParseMode(partitioning).value)
      invariant ParseMode(partitioning).None? ==> loads == [] && forall j :: 0 <= j < i ==> chunks[j] == []
      invariant error == None
    {
      assert chunks[..i + 1][..i] == chunks[..i];
      match ParseMode(partitioning)
      case None =>
        if chunks[i] != [] {
          error := Some(ModeError);
          return;
        }
      case Some(mode) =>
        var more := LoadGroups(chunks[i], PartKey(mode), Ensure(mode));
        loads := loads + more;
    }
    assert chunks[..|chunks|] == chunks;
  }

  /** Every load copies only rows whose date lies in the partition it ensured and
      copies into that partition. */
  lemma AllLoadsRouted(chunks: seq<seq<SpotRow>>, mode: Mode, k: nat)
    requires k < |AllLoads(chunks, mode)|
    ensures Routed(AllLoads(chunks, mode)[k], PartKey(mode), DayOf())
  {
    ConsistentRouting(mode);
    ChunkLoadsRouted(chunks, PartKey(mode), Ensure(mode), DayOf(), k);
  }

  /** Every row of every chunk is copied, into the partition named from its own date. */
  lemma AllLoadsCover(chunks: seq<seq<SpotRow>>, mode: Mode, i: nat, j: nat) returns (k: nat)
    requires i < |chunks| && j < |chunks[i]|
    ensures k < |AllLoads(chunks, mode)|
    ensures AllLoads(chunks, mode)[k].target == KeyOf(mode, chunks[i][j].date)
    ensures chunks[i][j] in AllLoads(chunks, mode)[k].rows
  {
    k := ChunkLoadsCover(chunks, PartKey(mode), Ensure(mode), i, j);
  }
}
