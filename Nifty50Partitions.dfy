/** The yearly partitions of the Nifty50 table: `Nifty50_y{YYYY}` over
    [YYYY-01-01, (YYYY+1)-01-01) with a `{name}_date_idx` index, created for each
    year from --start up to, not including, --end. */
module Nifty50Partitions {
  import opened Text
  import opened Calendar
  import opened Partitions

  /** `create_year_partition(year)`. */
  function YearPartition(y: nat): Partition
    requires y >= 1
  {
    var name := YearlyName("Nifty50_y", y);
    Partition(name, "Nifty50", Date(y, 1, 1), Date(y + 1, 1, 1), [name + "_date_idx"])
  }

  /** A year partition holds exactly the days of its year, and no two years share a
      partition name. */
  lemma YearPartitionExact(y: nat, z: nat, d: Date)
    requires y >= 1 && z >= 1 && ValidDate(d)
    ensures Holds(YearPartition(y), d) <==> d.year == y
    ensures YearPartition(y).name == YearPartition(z).name <==> y == z
  {
    YearBoundsExact(y, d);
    if YearPartition(y).name == YearPartition(z).name {
      YearlyNameInjective("Nifty50_y", y, z);
    }
  }

  /** The partitions for the years start, start + 1, ..., end - 1. */
  function YearRange(start: nat, end: int): (r: seq<Partition>)
    requires start >= 1
    ensures |r| == (if end > start then end - start else 0)
    decreases end - start
  {
    if end <= start then [] else [YearPartition(start)] + YearRange(start + 1, end)
  }

  /** `for y in range(args.start, args.end): create_year_partition(y)`. */
  method CreateYears(start: nat, end: int) returns (created: seq<Partition>)
    requires start >= 1
    ensures created == YearRange(start, end)
  {
    created := [];
    var y := start;
    while y < end
      invariant start <= y && (y <= end || y == start)
      invariant created + YearRange(y, end) == YearRange(start, end)
      decreases end - y
    {
      created := created + [YearPartition(y)];
      y := y + 1;
    }
  }

  /** A year's partition is created iff start <= year < end: the end year is excluded. */
  lemma {:induction false} YearRangeExact(start: nat, end: int, y: nat)
    requires start >= 1 && y >= 1
    ensures YearPartition(y) in YearRange(start, end) <==> start <= y < end
    decreases end - start
  {
    if end > start {
      YearRangeExact(start + 1, end, y);
      if YearPartition(y) == YearPartition(start) {
        YearPartitionExact(y, start, Date(y, 1, 1));
      }
    }
  }
}
