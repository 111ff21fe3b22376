/** The routing loop both bulk loaders share: a chunk of rows is grouped by the
    name of its partition, and for each group the partition is ensured from the
    group's first row and the group is copied into the partition named by the key. */
module PartitionLoad {
  import opened Calendar
  import opened Seqs
  import opened Grouping
  import opened Partitions

  /** One `copy_rows_to_partition(conn, target, rows)`, preceded by
      `ensure_partition_exists` of the group's first row. */
  datatype Load<R> = Load(target: string, ensured: Partition, rows: seq<R>)

  /** The loads of one chunk, one per group, in group order. */
  function GroupLoads<R>(rows: seq<R>, key: R -> string, ensure: R -> Partition): (r: seq<Load<R>>)
    ensures |r| == |GroupBy(rows, key)|
  {
    var groups := GroupBy(rows, key);
    seq(|groups|, g requires 0 <= g < |groups| => Load(groups[g].0, ensure(groups[g].1[0]), groups[g].1))
  }

  /** `for part, subdf in chunk.groupby("_part_key")`: ensure the partition of the
      first row, then copy the group into `part`. */
  method LoadGroups<R>(rows: seq<R>, key: R -> string, ensure: R -> Partition) returns (loads: seq<Load<R>>)
    ensures loads == GroupLoads(rows, key, ensure)
  {
    var groups := GroupBy(rows, key);
    loads := [];
    for g := 0 to |groups|
      invariant loads == GroupLoads(rows, key, ensure)[..g]
    {
      var sample := groups[g].1[0];
      var partition := ensure(sample);
      loads := loads + [Load(groups[g].0, partition, groups[g].1)];
    }
  }

  /** The partition ensured for a row is the one the row's key names, and it holds
      the day of every row with the same key. */
  ghost predicate Consistent<R(!new)>(key: R -> string, ensure: R -> Partition, day: R -> Date) {
    forall a: R, b: R :: ensure(a).name == key(a) && (key(a) == key(b) ==> Holds(ensure(a), day(b)))
  }

  /** A load is routed right: it copies into the partition it ensured, and every
      row it copies carries that partition's key and lies inside its bounds. */
  predicate Routed<R>(l: Load<R>, key: R -> string, day: R -> Date) {
    && l.rows != []
    && l.target == l.ensured.name
    && forall i :: 0 <= i < |l.rows| ==> key(l.rows[i]) == l.target && Holds(l.ensured, day(l.rows[i]))
  }

  lemma GroupLoadsRouted<R(!new)>(rows: seq<R>, key: R -> string, ensure: R -> Partition, day: R -> Date, k: nat)
    requires Consistent(key, ensure, day)
    requires k < |GroupLoads(rows, key, ensure)|
    ensures Routed(GroupLoads(rows, key, ensure)[k], key, day)
  {
    var groups := GroupBy(rows, key);
    var l := GroupLoads(rows, key, ensure)[k];
    assert l == Load(groups[k].0, ensure(groups[k].1[0]), groups[k].1);
    GroupByExact(rows, key, k, groups[k].1[0]);
    forall i | 0 <= i < |l.rows| ensures key(l.rows[i]) == l.target && Holds(l.ensured, day(l.rows[i])) {
      GroupByExact(rows, key, k, l.rows[i]);
    }
  }

  /** Every row of the chunk is copied, by the load whose target is its key, and
      no two loads of a chunk share a target. */
  lemma GroupLoadsCover<R>(rows: seq<R>, key: R -> string, ensure: R -> Partition, i: nat) returns (k: nat)
    requires i < |rows|
    ensures k < |GroupLoads(rows, key, ensure)|
    ensures GroupLoads(rows, key, ensure)[k].target == key(rows[i])
    ensures rows[i] in GroupLoads(rows, key, ensure)[k].rows
    ensures forall h :: 0 <= h < |GroupLoads(rows, key, ensure)| && h != k ==>
      GroupLoads(rows, key, ensure)[h].target != key(rows[i])
  {
    k := GroupByCovers(rows, key, i);
    GroupByOrdered(rows, key);
  }

  /** The loads of one chunk, as a function of the chunk. */
  function PerChunk<R>(key: R -> string, ensure: R -> Partition): seq<R> -> seq<Load<R>> {
    (rows: seq<R>) => GroupLoads(rows, key, ensure)
  }

  /** The loads of a sequence of chunks, chunk after chunk. */
  function ChunkLoads<R>(chunks: seq<seq<R>>, key: R -> string, ensure: R -> Partition): seq<Load<R>> {
    Chunked(chunks, PerChunk(key, ensure))
  }

  /** Every load of every chunk is routed right. */
  lemma ChunkLoadsRouted<R(!new)>(chunks: seq<seq<R>>, key: R -> string, ensure: R -> Partition, day: R -> Date, k: nat)
    requires Consistent(key, ensure, day)
    requires k < |ChunkLoads(chunks, key, ensure)|
    ensures Routed(ChunkLoads(chunks, key, ensure)[k], key, day)
  {
    var i, h := ChunkedFrom(chunks, PerChunk(key, ensure), k);
    GroupLoadsRouted(chunks[i], key, ensure, day, h);
  }

  /** Every row of every chunk is copied by a load whose target is the row's key. */
  lemma ChunkLoadsCover<R>(chunks: seq<seq<R>>, key: R -> string, ensure: R -> Partition, i: nat, j: nat)
    returns (k: nat)
    requires i < |chunks| && j < |chunks[i]|
    ensures k < |ChunkLoads(chunks, key, ensure)|
    ensures ChunkLoads(chunks, key, ensure)[k].target == key(chunks[i][j])
    ensures chunks[i][j] in ChunkLoads(chunks, key, ensure)[k].rows
  {
    var h := GroupLoadsCover(chunks[i], key, ensure, j);
    k := ChunkedAt(chunks, PerChunk(key, ensure), i, h);
  }
}
