/** Copying round-1 legs into the leg book (scripts/insert_sl_legs.py).

    strategy_leg_book has primary key (trade_date, expiry_date, strike,
    option_type, entry_round, leg_type); rows are inserted with
    `ON CONFLICT DO NOTHING RETURNING 1`, so only rows whose key is new are added
    and counted. Every row of the round-1 view is offered, whatever its
    exit_reason. */
module LegBook {
  import opened Wrappers
  import opened Calendar
  import opened KeyedTable

  /** One row of mv_all_legs_pnl_entry_round1 as selected; times are seconds since midnight. */
  datatype Leg = Leg(
    tradeDate: Date, expiryDate: Date, breakoutTime: Option<int>, entryTime: int, exitTime: Option<int>,
    optionType: string, strike: real, entryPrice: real, exitPrice: Option<real>,
    transactionType: string, legType: string, entryRound: int, exitReason: Option<string>)

  /** The primary key strategy_leg_book_pkey. */
  datatype LegKey = LegKey(tradeDate: Date, expiryDate: Date, strike: real, optionType: string, entryRound: int, legType: string)

  function KeyOf(l: Leg): LegKey {
    LegKey(l.tradeDate, l.expiryDate, l.strike, l.optionType, l.entryRound, l.legType)
  }

  function Keyed(rows: seq<Leg>): (r: seq<(LegKey, Leg)>)
    ensures |r| == |rows|
    ensures forall i :: 0 <= i < |rows| ==> r[i] == (KeyOf(rows[i]), rows[i])
  {
    seq(|rows|, i requires 0 <= i < |rows| => (KeyOf(rows[i]), rows[i]))
  }

  function Flatten(chunks: seq<seq<Leg>>): seq<Leg> {
    if chunks == [] then [] else Flatten(chunks[..|chunks| - 1]) + chunks[|chunks| - 1]
  }

  function TotalSize(chunks: seq<seq<Leg>>): nat {
    if chunks == [] then 0 else TotalSize(chunks[..|chunks| - 1]) + |chunks[|chunks| - 1]|
  }

  /** The total selected is the number of rows offered. */
  lemma {:induction false} FlattenSize(chunks: seq<seq<Leg>>)
    ensures |Flatten(chunks)| == TotalSize(chunks)
    decreases |chunks|
  {
    if chunks != [] {
      FlattenSize(chunks[..|chunks| - 1]);
    }
  }

  /** The destination table: whether it exists, and its rows by key. */
  class LegBookTable {
    var present: bool
    var rows: map<LegKey, Leg>

    constructor (present: bool, rows: map<LegKey, Leg>)
      ensures this.present == present && this.rows == rows
    {
      this.present := present;
      this.rows := rows;
    }
  }

  /** The book a real run leaves behind, with the count of rows it added. */
  function Outcome(start: map<LegKey, Leg>, chunks: seq<seq<Leg>>, truncate: bool): (map<LegKey, Leg>, nat) {
    InsertNew(if truncate then map[] else start, Keyed(Flatten(chunks)))
  }

  /** `run(truncate, batch, dry_run)` over the chunks the view is read in. A dry run
      touches nothing and inserts nothing; a real run creates the table if missing,
      empties it when asked, then inserts every chunk with insert-if-absent. */
  method Run(book: LegBookTable, chunks: seq<seq<Leg>>, truncate: bool, dryRun: bool)
    returns (selected: nat, inserted: nat)
    modifies book
    ensures selected == TotalSize(chunks)
    ensures dryRun ==> book.rows == old(book.rows) && book.present == old(book.present) && inserted == 0
    ensures !dryRun ==> book.present && (book.rows, inserted) == Outcome(old(book.rows), chunks, truncate)
  {
    selected, inserted := 0, 0;
    if !dryRun {
      book.present := true;
    }
    if truncate && !dryRun {
      book.rows := map[];
    }
    ghost var base := book.rows;
    var i := 0;
    while i < |chunks|
      invariant 0 <= i <= |chunks|
      invariant selected == TotalSize(chunks[..i])
      invariant dryRun ==> book.rows == old(book.rows) && book.present == old(book.present) && inserted == 0
      invariant !dryRun ==> book.present && base == (if truncate then map[] else old(book.rows))
      invariant !dryRun ==> (book.rows, inserted) == InsertNew(base, Keyed(Flatten(chunks[..i])))
    {
      var rows := chunks[i];
      ChunkSteps(chunks, i);
      selected := selected + |rows|;
      if rows == [] {
        if !dryRun {
          assert Keyed(rows) == [];
          InsertChunk(base, chunks, i, book.rows, inserted, book.rows, 0);
        }
        i := i + 1;
        continue;
      }
      if dryRun {
        i := i + 1;
        continue;
      }
      var (next, count) := InsertNew(book.rows, Keyed(rows));
      InsertChunk(base, chunks, i, book.rows, inserted, next, count);
      book.rows := next;
      inserted := inserted + count;
      i := i + 1;
    }
    assert chunks[..|chunks|] == chunks;
  }

  /** One more chunk adds its size and its rows. */
  lemma ChunkSteps(chunks: seq<seq<Leg>>, i: nat)
    requires i < |chunks|
    ensures TotalSize(chunks[..i + 1]) == TotalSize(chunks[..i]) + |chunks[i]|
    ensures Flatten(chunks[..i + 1]) == Flatten(chunks[..i]) + chunks[i]
  {
    assert chunks[..i + 1][..i] == chunks[..i];
  }

  /** Inserting the next chunk into the book built from the earlier ones gives the
      book built from all of them. */
  lemma InsertChunk(base: map<LegKey, Leg>, chunks: seq<seq<Leg>>, i: nat,
                    rows: map<LegKey, Leg>, inserted: nat, next: map<LegKey, Leg>, count: nat)
    requires i < |chunks|
    requires (rows, inserted) == InsertNew(base, Keyed(Flatten(chunks[..i])))
    requires (next, count) == InsertNew(rows, Keyed(chunks[i]))
    ensures (next, inserted + count) == InsertNew(base, Keyed(Flatten(chunks[..i + 1])))
  {
    var before := Flatten(chunks[..i]);
    ChunkSteps(chunks, i);
    InsertNewSplit(base, Keyed(before), Keyed(chunks[i]));
    assert Keyed(before + chunks[i]) == Keyed(before) + Keyed(chunks[i]);
  }

  /** A real run never reports more inserted rows than it selected, and the count is
      exactly how much the book grew. */
  lemma InsertedAtMostSelected(start: map<LegKey, Leg>, chunks: seq<seq<Leg>>, truncate: bool)
    ensures Outcome(start, chunks, truncate).1 <= TotalSize(chunks)
    ensures |Outcome(start, chunks, truncate).0.Keys|
         == |(if truncate then map[] else start).Keys| + Outcome(start, chunks, truncate).1
  {
    FlattenSize(chunks);
    InsertNewCount(if truncate then map[] else start, Keyed(Flatten(chunks)));
  }

  /** Running again without --truncate over the same rows adds nothing and changes nothing. */
  lemma RerunIsIdempotent(start: map<LegKey, Leg>, chunks: seq<seq<Leg>>, truncate: bool)
    ensures var first := Outcome(start, chunks, truncate);
      Outcome(first.0, chunks, false) == (first.0, 0)
  {
    InsertNewIdempotent(if truncate then map[] else start, Keyed(Flatten(chunks)));
  }

  /** Every offered leg ends up in the book (whatever its exit_reason), existing rows are
      never overwritten, and nothing else is added. */
  lemma EveryLegBooked(start: map<LegKey, Leg>, chunks: seq<seq<Leg>>, leg: Leg)
    requires leg in Flatten(chunks)
    ensures KeyOf(leg) in Outcome(start, chunks, false).0
    ensures forall k :: k in start ==> k in Outcome(start, chunks, false).0 && Outcome(start, chunks, false).0[k] == start[k]
    ensures forall k :: k in Outcome(start, chunks, false).0 ==> k in start || k in KeysOf(Keyed(Flatten(chunks)))
  {
    var rows := Flatten(chunks);
    InsertNewAppendOnly(start, Keyed(rows));
    var i :| 0 <= i < |rows| && rows[i] == leg;
    assert Keyed(rows)[i].0 == KeyOf(leg);
  }
}
