/** Tables with a unique key, as PostgreSQL keeps them: `INSERT ... ON CONFLICT
    DO NOTHING` (insert-if-absent, reporting the rows actually added, as
    `RETURNING 1` does) and `INSERT ... ON CONFLICT (key) DO UPDATE` that
    overwrites every non-key column (upsert). Rows of one batch are applied in
    order, so a later row of the batch sees the earlier ones. */
module KeyedTable {

  /** Insert-if-absent of a batch of keyed rows: the new table and the number of rows added. */
  function InsertNew<K, V>(table: map<K, V>, rows: seq<(K, V)>): (r: (map<K, V>, nat))
    decreases |rows|
  {
    if rows == [] then (table, 0)
    else if rows[0].0 in table then InsertNew(table, rows[1..])
    else
      var next := InsertNew(table[rows[0].0 := rows[0].1], rows[1..]);
      (next.0, next.1 + 1)
  }

  function KeysOf<K, V>(rows: seq<(K, V)>): set<K> {
    set i | 0 <= i < |rows| :: rows[i].0
  }

  /** The table only grows: existing rows are kept untouched, every offered key ends up
      present, and nothing else is added. */
  lemma {:induction false} InsertNewAppendOnly<K, V>(table: map<K, V>, rows: seq<(K, V)>)
    ensures forall k :: k in table ==> k in InsertNew(table, rows).0 && InsertNew(table, rows).0[k] == table[k]
    ensures InsertNew(table, rows).0.Keys == table.Keys + KeysOf(rows)
    decreases |rows|
  {
    if rows != [] {
      assert KeysOf(rows) == {rows[0].0} + KeysOf(rows[1..]) by {
        forall k | k in KeysOf(rows) ensures k in {rows[0].0} + KeysOf(rows[1..]) {
          var i :| 0 <= i < |rows| && rows[i].0 == k;
          if i > 0 { assert rows[1..][i - 1].0 == k; }
        }
        forall k | k in KeysOf(rows[1..]) ensures k in KeysOf(rows) {
          var i :| 0 <= i < |rows[1..]| && rows[1..][i].0 == k;
          assert rows[i + 1].0 == k;
        }
      }
      if rows[0].0 in table {
        InsertNewAppendOnly(table, rows[1..]);
      } else {
        InsertNewAppendOnly(table[rows[0].0 := rows[0].1], rows[1..]);
      }
    }
  }

  /** The reported count is exactly how much the table grew, so it never exceeds the
      number of rows offered. */
  lemma {:induction false} InsertNewCount<K, V>(table: map<K, V>, rows: seq<(K, V)>)
    ensures InsertNew(table, rows).1 <= |rows|
    ensures |InsertNew(table, rows).0.Keys| == |table.Keys| + InsertNew(table, rows).1
    decreases |rows|
  {
    if rows != [] {
      if rows[0].0 in table {
        InsertNewCount(table, rows[1..]);
      } else {
        var t := table[rows[0].0 := rows[0].1];
        assert t.Keys == table.Keys + {rows[0].0};
        InsertNewCount(t, rows[1..]);
      }
    }
  }

  /** Every key the insert adds holds the value of an offered row with that key. */
  lemma {:induction false} InsertNewFrom<K, V>(table: map<K, V>, rows: seq<(K, V)>)
    ensures forall k :: k in InsertNew(table, rows).0 && k !in table ==> (k, InsertNew(table, rows).0[k]) in rows
    decreases |rows|
  {
    if rows != [] {
      var t := if rows[0].0 in table then table else table[rows[0].0 := rows[0].1];
      InsertNewFrom(t, rows[1..]);
      InsertNewAppendOnly(t, rows[1..]);
      forall k | k in InsertNew(table, rows).0 && k !in table
        ensures (k, InsertNew(table, rows).0[k]) in rows
      {
        if k !in t {
          assert (k, InsertNew(t, rows[1..]).0[k]) in rows[1..];
        }
      }
    }
  }

  /** Re-running the same insert changes nothing and adds no row. */
  lemma InsertNewIdempotent<K, V>(table: map<K, V>, rows: seq<(K, V)>)
    ensures InsertNew(InsertNew(table, rows).0, rows) == (InsertNew(table, rows).0, 0)
  {
    var t := InsertNew(table, rows).0;
    InsertNewAppendOnly(table, rows);
    InsertNewOfPresent(t, rows);
  }

  /** Offering only keys that are already present is a no-op. */
  lemma {:induction false} InsertNewOfPresent<K, V>(table: map<K, V>, rows: seq<(K, V)>)
    requires forall i :: 0 <= i < |rows| ==> rows[i].0 in table
    ensures InsertNew(table, rows) == (table, 0)
    decreases |rows|
  {
    if rows != [] {
      InsertNewOfPresent(table, rows[1..]);
    }
  }

  /** An absent key receives the value of the first offered row with that key. */
  lemma {:induction false} InsertNewFirstWins<K, V>(table: map<K, V>, rows: seq<(K, V)>, i: nat)
    requires i < |rows| && rows[i].0 !in table
    requires forall j :: 0 <= j < i ==> rows[j].0 != rows[i].0
    ensures rows[i].0 in InsertNew(table, rows).0 && InsertNew(table, rows).0[rows[i].0] == rows[i].1
    decreases |rows|
  {
    InsertNewAppendOnly(table, rows);
    if i == 0 {
      InsertNewAppendOnly(table[rows[0].0 := rows[0].1], rows[1..]);
    } else if rows[0].0 in table {
      InsertNewFirstWins(table, rows[1..], i - 1);
    } else {
      InsertNewFirstWins(table[rows[0].0 := rows[0].1], rows[1..], i - 1);
    }
  }

  /** Inserting a + b is inserting a, then b into the result; the counts add up. */
  lemma {:induction false} InsertNewSplit<K, V>(table: map<K, V>, a: seq<(K, V)>, b: seq<(K, V)>)
    ensures var first := InsertNew(table, a);
      var second := InsertNew(first.0, b);
      InsertNew(table, a + b) == (second.0, first.1 + second.1)
    decreases |a|
  {
    if a == [] {
      assert a + b == b;
    } else {
      assert (a + b)[0] == a[0] && (a + b)[1..] == a[1..] + b;
      if a[0].0 in table {
        InsertNewSplit(table, a[1..], b);
      } else {
        InsertNewSplit(table[a[0].0 := a[0].1], a[1..], b);
      }
    }
  }

  /** Upsert of a batch: each row overwrites whatever its key held. */
  function UpsertAll<K, V>(table: map<K, V>, rows: seq<(K, V)>): map<K, V>
    decreases |rows|
  {
    if rows == [] then table else UpsertAll(table[rows[0].0 := rows[0].1], rows[1..])
  }

  /** Upserting one more row is a single map update on top of the batch. */
  lemma {:induction false} UpsertAllSnoc<K, V>(table: map<K, V>, rows: seq<(K, V)>, row: (K, V))
    ensures UpsertAll(table, rows + [row]) == UpsertAll(table, rows)[row.0 := row.1]
    decreases |rows|
  {
    if rows != [] {
      assert (rows + [row])[1..] == rows[1..] + [row];
      UpsertAllSnoc(table[rows[0].0 := rows[0].1], rows[1..], row);
    }
  }

  /** After an upsert, a key holds the value of the LAST row offered with that key;
      keys that were not offered keep their old values. */
  lemma {:induction false} UpsertLastWins<K, V>(table: map<K, V>, rows: seq<(K, V)>, k: K)
    ensures k in UpsertAll(table, rows) <==> k in table || k in KeysOf(rows)
    ensures k !in KeysOf(rows) && k in table ==> UpsertAll(table, rows)[k] == table[k]
    ensures forall i :: 0 <= i < |rows| && rows[i].0 == k
              && (forall j :: i < j < |rows| ==> rows[j].0 != k)
              ==> UpsertAll(table, rows)[k] == rows[i].1
    decreases |rows|
  {
    if rows != [] {
      UpsertLastWins(table[rows[0].0 := rows[0].1], rows[1..], k);
      assert KeysOf(rows) == {rows[0].0} + KeysOf(rows[1..]) by {
        forall x | x in KeysOf(rows) ensures x in {rows[0].0} + KeysOf(rows[1..]) {
          var i :| 0 <= i < |rows| && rows[i].0 == x;
          if i > 0 { assert rows[1..][i - 1].0 == x; }
        }
        forall x | x in KeysOf(rows[1..]) ensures x in KeysOf(rows) {
          var i :| 0 <= i < |rows[1..]| && rows[1..][i].0 == x;
          assert rows[i + 1].0 == x;
        }
      }
      forall i | 0 <= i < |rows| && rows[i].0 == k && (forall j :: i < j < |rows| ==> rows[j].0 != k)
        ensures UpsertAll(table, rows)[k] == rows[i].1
      {
        if i > 0 {
          assert rows[1..][i - 1] == rows[i];
          assert forall j :: i - 1 < j < |rows[1..]| ==> rows[1..][j].0 != k by {
            forall j | i - 1 < j < |rows[1..]| ensures rows[1..][j].0 != k {
              assert rows[1..][j] == rows[j + 1];
            }
          }
        } else {
          assert k !in KeysOf(rows[1..]);
        }
      }
    }
  }
}
