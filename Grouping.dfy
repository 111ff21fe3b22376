/** pandas `DataFrame.groupby(key)` with its default `sort=True`: one group per
    distinct key, the groups in ascending key order, each group holding the rows
    with that key in their original order. The loaders use it to route rows to
    partitions. */
module Grouping {
  import opened Text
  import opened Seqs
  import opened Sorting

  /** Python's `<=` on strings, as a comparison for sorting. */
  function StrOrder(): (string, string) -> bool {
    (a: string, b: string) => StrLeq(a, b)
  }

  lemma StrOrderTotalPreorder()
    ensures TotalPreorder(StrOrder())
  {
    forall a: string, b: string ensures StrLeq(a, b) || StrLeq(b, a) {
      StrLeqTotal(a, b);
    }
    forall a: string, b: string, c: string | StrLeq(a, b) && StrLeq(b, c)
      ensures StrLeq(a, c)
    {
      StrLeqTransitive(a, b, c);
    }
  }

  /** A sequence without repeated elements occurs at most once in its multiset. */
  lemma {:induction false} DistinctCount<T>(s: seq<T>, x: T)
    requires forall i, j :: 0 <= i < j < |s| ==> s[i] != s[j]
    ensures multiset(s)[x] <= 1
  {
    if s != [] {
      assert s == [s[0]] + s[1..];
      DistinctCount(s[1..], x);
      if x == s[0] {
        assert x !in s[1..];
      }
    }
  }

  /** A repeated element occurs at least twice in the multiset. */
  lemma RepeatCount<T>(s: seq<T>, i: nat, j: nat)
    requires i < j < |s| && s[i] == s[j]
    ensures multiset(s)[s[i]] >= 2
  {
    assert s == s[..j] + [s[j]] + s[j + 1..];
    assert s[..j][i] == s[i];
    assert multiset(s) == multiset(s[..j]) + multiset{s[j]} + multiset(s[j + 1..]);
  }

  /** Reordering a sequence without repetitions yields one without repetitions. */
  lemma PermutationDistinct<T>(a: seq<T>, b: seq<T>)
    requires multiset(a) == multiset(b)
    requires forall i, j :: 0 <= i < j < |a| ==> a[i] != a[j]
    ensures forall i, j :: 0 <= i < j < |b| ==> b[i] != b[j]
  {
    forall i, j | 0 <= i < j < |b| ensures b[i] != b[j] {
      if b[i] == b[j] {
        RepeatCount(b, i, j);
        DistinctCount(a, b[i]);
      }
    }
  }

  /** The key of each row, in row order. */
  function RowKeys<R>(rows: seq<R>, key: R -> string): (r: seq<string>)
    ensures |r| == |rows|
    ensures forall i :: 0 <= i < |rows| ==> r[i] == key(rows[i])
  {
    seq(|rows|, i requires 0 <= i < |rows| => key(rows[i]))
  }

  /** The group keys: every key that occurs, once, in ascending order. */
  function GroupKeys<R>(rows: seq<R>, key: R -> string): (keys: seq<string>)
    ensures forall k :: k in keys <==> k in RowKeys(rows, key)
    ensures Sorted(keys, StrOrder())
    ensures forall i, j :: 0 <= i < j < |keys| ==> keys[i] != keys[j]
  {
    StrOrderTotalPreorder();
    var u := Unique(RowKeys(rows, key));
    var s := Sort(u, StrOrder());
    PermutationDistinct(u, s);
    assert forall k :: k in s <==> k in multiset(s);
    assert forall k :: k in u <==> k in multiset(u);
    s
  }

  function HasKey<R>(key: R -> string, k: string): R -> bool {
    (r: R) => key(r) == k
  }

  /** Selecting the rows of a key that occurs leaves at least one row. */
  lemma GroupsNonEmpty<R>(rows: seq<R>, key: R -> string, keys: seq<string>)
    requires forall k :: k in keys ==> k in RowKeys(rows, key)
    ensures forall g :: 0 <= g < |keys| ==> Filter(rows, HasKey(key, keys[g])) != []
  {
    forall g | 0 <= g < |keys| ensures Filter(rows, HasKey(key, keys[g])) != [] {
      assert keys[g] in RowKeys(rows, key);
      var i :| 0 <= i < |rows| && RowKeys(rows, key)[i] == keys[g];
      FilterMember(rows, HasKey(key, keys[g]), rows[i]);
    }
  }

  /** The groups of `df.groupby(key)`: (key, the rows with that key). */
  function GroupBy<R>(rows: seq<R>, key: R -> string): (groups: seq<(string, seq<R>)>)
    ensures |groups| == |GroupKeys(rows, key)|
    ensures forall g :: 0 <= g < |groups| ==> groups[g].1 != []
  {
    var keys := GroupKeys(rows, key);
    GroupsNonEmpty(rows, key, keys);
    seq(|keys|, g requires 0 <= g < |keys| => (keys[g], Filter(rows, HasKey(key, keys[g]))))
  }

  /** A group is the selection of the rows carrying its key, in their original
      order: it holds every copy of such a row and nothing else. */
  lemma GroupByExact<R>(rows: seq<R>, key: R -> string, g: nat, x: R)
    requires g < |GroupBy(rows, key)|
    ensures var grp := GroupBy(rows, key)[g];
      grp.1 == Filter(rows, HasKey(key, grp.0))
    ensures var grp := GroupBy(rows, key)[g];
      x in grp.1 <==> x in rows && key(x) == grp.0
    ensures var grp := GroupBy(rows, key)[g];
      multiset(grp.1)[x] == if key(x) == grp.0 then multiset(rows)[x] else 0
  {
    var keys := GroupKeys(rows, key);
    var grp := GroupBy(rows, key)[g];
    assert grp == (keys[g], Filter(rows, HasKey(key, keys[g])));
    FilterMember(rows, HasKey(key, keys[g]), x);
    FilterMultiset(rows, HasKey(key, keys[g]), x);
  }

  /** Every row lands in the group of its own key. */
  lemma GroupByCovers<R>(rows: seq<R>, key: R -> string, i: nat) returns (g: nat)
    requires i < |rows|
    ensures g < |GroupBy(rows, key)|
    ensures GroupBy(rows, key)[g].0 == key(rows[i]) && rows[i] in GroupBy(rows, key)[g].1
  {
    var keys := GroupKeys(rows, key);
    assert RowKeys(rows, key)[i] == key(rows[i]);
    assert key(rows[i]) in keys;
    var k :| 0 <= k < |keys| && keys[k] == key(rows[i]);
    g := k;
    GroupByExact(rows, key, g, rows[i]);
  }

  /** Group keys are distinct and ascending, so no row can land in two groups. */
  lemma GroupByOrdered<R>(rows: seq<R>, key: R -> string)
    ensures var groups := GroupBy(rows, key);
      forall g, h :: 0 <= g < h < |groups| ==> groups[g].0 != groups[h].0 && StrLeq(groups[g].0, groups[h].0)
  {
    var groups := GroupBy(rows, key);
    var keys := GroupKeys(rows, key);
    forall g, h | 0 <= g < h < |groups|
      ensures groups[g].0 != groups[h].0 && StrLeq(groups[g].0, groups[h].0)
    {
      assert groups[g].0 == keys[g] && groups[h].0 == keys[h];
      assert StrOrder()(keys[g], keys[h]);
    }
  }

  /** No rows, no groups. */
  lemma GroupByEmpty<R>(key: R -> string)
    ensures GroupBy([], key) == []
  {
  }
}
