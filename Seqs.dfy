/** Order-preserving selection from a sequence (a boolean mask over a frame, or a
    SQL `WHERE` over rows read in order), with the facts about its first and
    last elements that pandas' `first`/`last` aggregations rely on. */
module Seqs {

  /** The elements of s satisfying p, in their original order. */
  function Filter<T>(s: seq<T>, p: T -> bool): (r: seq<T>)
    ensures |r| <= |s|
    ensures forall i :: 0 <= i < |r| ==> r[i] in s && p(r[i])
    ensures forall i :: 0 <= i < |s| && p(s[i]) ==> s[i] in r
  {
    if s == [] then []
    else (if p(s[0]) then [s[0]] else []) + Filter(s[1..], p)
  }

  /** Membership in a selection. */
  lemma FilterMember<T>(s: seq<T>, p: T -> bool, x: T)
    ensures x in Filter(s, p) <==> x in s && p(x)
  {
    if x in Filter(s, p) {
      var k :| 0 <= k < |Filter(s, p)| && Filter(s, p)[k] == x;
    }
    if x in s && p(x) {
      var k :| 0 <= k < |s| && s[k] == x;
    }
  }

  /** A selection keeps every copy of a selected element and no copy of another. */
  lemma {:induction false} FilterMultiset<T>(s: seq<T>, p: T -> bool, x: T)
    ensures multiset(Filter(s, p))[x] == if p(x) then multiset(s)[x] else 0
  {
    if s != [] {
      FilterMultiset(s[1..], p, x);
      assert s == [s[0]] + s[1..];
      assert Filter(s, p) == (if p(s[0]) then [s[0]] else []) + Filter(s[1..], p);
      assert multiset(s) == multiset([s[0]]) + multiset(s[1..]);
    }
  }

  /** The first selected element is the earliest element of s satisfying p. */
  lemma {:induction false} FilterFirst<T>(s: seq<T>, p: T -> bool) returns (i: nat)
    requires Filter(s, p) != []
    ensures i < |s| && p(s[i]) && Filter(s, p)[0] == s[i]
    ensures forall j :: 0 <= j < i ==> !p(s[j])
  {
    if p(s[0]) {
      i := 0;
    } else {
      var k := FilterFirst(s[1..], p);
      i := k + 1;
    }
  }

  /** The last selected element is the latest element of s satisfying p. */
  lemma {:induction false} FilterLast<T>(s: seq<T>, p: T -> bool) returns (i: nat)
    requires Filter(s, p) != []
    ensures i < |s| && p(s[i]) && Filter(s, p)[|Filter(s, p)| - 1] == s[i]
    ensures forall j :: i < j < |s| ==> !p(s[j])
  {
    var rest := Filter(s[1..], p);
    if rest == [] {
      assert p(s[0]);
      i := 0;
      forall j | 0 < j < |s| ensures !p(s[j]) {
        assert s[1..][j - 1] == s[j];
      }
    } else {
      var k := FilterLast(s[1..], p);
      i := k + 1;
      forall j | i < j < |s| ensures !p(s[j]) {
        assert s[1..][j - 1] == s[j];
      }
    }
  }

  /** Selecting with q and then with a stronger p is selecting with p. */
  lemma {:induction false} FilterFilter<T>(s: seq<T>, q: T -> bool, p: T -> bool)
    requires forall x :: p(x) ==> q(x)
    ensures Filter(Filter(s, q), p) == Filter(s, p)
  {
    if s != [] {
      FilterFilter(s[1..], q, p);
      if q(s[0]) {
        var fq := Filter(s, q);
        assert fq == [s[0]] + Filter(s[1..], q);
        assert fq[0] == s[0] && fq[1..] == Filter(s[1..], q);
        assert Filter(fq, p) == (if p(s[0]) then [s[0]] else []) + Filter(fq[1..], p);
      } else {
        assert !p(s[0]);
        assert Filter(s, q) == Filter(s[1..], q);
        assert Filter(s, p) == Filter(s[1..], p);
      }
    }
  }

  /** Selection distributes over concatenation. */
  lemma {:induction false} FilterAppend<T>(a: seq<T>, b: seq<T>, p: T -> bool)
    ensures Filter(a + b, p) == Filter(a, p) + Filter(b, p)
  {
    if a != [] {
      assert (a + b)[1..] == a[1..] + b;
      FilterAppend(a[1..], b, p);
    } else {
      assert a + b == b;
    }
  }

  /** An element of a non-empty sequence is in its front part or is its last element. */
  lemma InFrontOrLast<T>(s: seq<T>, x: T)
    requires s != []
    ensures x in s <==> x in s[..|s| - 1] || x == s[|s| - 1]
  {
    if x in s {
      var k :| 0 <= k < |s| && s[k] == x;
      if k < |s| - 1 {
        assert s[..|s| - 1][k] == x;
      }
    }
  }

  /** s is in ascending order of key. */
  predicate OrderedBy<T>(s: seq<T>, key: T -> int) {
    forall i, j :: 0 <= i < j < |s| ==> key(s[i]) <= key(s[j])
  }

  /** A lower bound on the keys of s bounds the keys of any selection from it. */
  lemma FilterLowerBound<T>(s: seq<T>, p: T -> bool, key: T -> int, lo: int)
    requires forall i :: 0 <= i < |s| ==> lo <= key(s[i])
    ensures forall i :: 0 <= i < |Filter(s, p)| ==> lo <= key(Filter(s, p)[i])
  {
    var f := Filter(s, p);
    forall i | 0 <= i < |f| ensures lo <= key(f[i]) {
      assert f[i] in s;
    }
  }

  /** The tail of an ordered sequence is ordered and bounded below by its head. */
  lemma OrderedTail<T>(s: seq<T>, key: T -> int)
    requires s != [] && OrderedBy(s, key)
    ensures OrderedBy(s[1..], key)
    ensures forall i :: 0 <= i < |s[1..]| ==> key(s[0]) <= key(s[1..][i])
  {
    var rest := s[1..];
    forall i, j | 0 <= i < j < |rest| ensures key(rest[i]) <= key(rest[j]) {
      assert rest[i] == s[i + 1] && rest[j] == s[j + 1];
    }
    forall i | 0 <= i < |rest| ensures key(s[0]) <= key(rest[i]) {
      assert rest[i] == s[i + 1];
    }
  }

  /** An element no larger than any of an ordered sequence may be put in front of it. */
  lemma OrderedCons<T>(x: T, t: seq<T>, key: T -> int)
    requires OrderedBy(t, key)
    requires forall i :: 0 <= i < |t| ==> key(x) <= key(t[i])
    ensures OrderedBy([x] + t, key)
  {
    var f := [x] + t;
    forall i, j | 0 <= i < j < |f| ensures key(f[i]) <= key(f[j]) {
      assert f[j] == t[j - 1];
      if i > 0 {
        assert f[i] == t[i - 1];
      }
    }
  }

  /** A selection from a sequence ordered by a key is ordered by that key. */
  lemma {:induction false} FilterKeepsOrder<T>(s: seq<T>, p: T -> bool, key: T -> int)
    requires OrderedBy(s, key)
    ensures OrderedBy(Filter(s, p), key)
  {
    if s != [] {
      OrderedTail(s, key);
      FilterKeepsOrder(s[1..], p, key);
      FilterLowerBound(s[1..], p, key, key(s[0]));
      if p(s[0]) {
        OrderedCons(s[0], Filter(s[1..], p), key);
        assert Filter(s, p) == [s[0]] + Filter(s[1..], p);
      } else {
        assert Filter(s, p) == Filter(s[1..], p);
      }
    }
  }

  /** Nothing is selected when no element qualifies. */
  lemma {:induction false} FilterNone<T>(s: seq<T>, p: T -> bool)
    requires forall i :: 0 <= i < |s| ==> !p(s[i])
    ensures Filter(s, p) == []
  {
    if s != [] {
      assert forall i :: 0 <= i < |s[1..]| ==> !p(s[1..][i]) by {
        forall i | 0 <= i < |s[1..]| ensures !p(s[1..][i]) {
          assert s[1..][i] == s[i + 1];
        }
      }
      FilterNone(s[1..], p);
    }
  }

  /** `Series.unique()`: each value once, in order of first appearance. */
  function Unique<T(==,!new)>(xs: seq<T>): (r: seq<T>)
    ensures forall x :: x in r <==> x in xs
    ensures forall i, j :: 0 <= i < j < |r| ==> r[i] != r[j]
    decreases |xs|
  {
    if xs == [] then []
    else
      var u := Unique(xs[..|xs| - 1]);
      assert forall x :: x in xs <==> x in xs[..|xs| - 1] || x == xs[|xs| - 1];
      if xs[|xs| - 1] in u then u else u + [xs[|xs| - 1]]
  }

  /** First-appearance order: of two values of `Unique(xs)`, the earlier one occurs
      in xs before any occurrence of the later one. */
  lemma {:induction false} UniqueOrder<T(!new)>(xs: seq<T>, i: nat, j: nat) returns (a: nat)
    requires i < j < |Unique(xs)|
    ensures a < |xs| && xs[a] == Unique(xs)[i] && Unique(xs)[j] !in xs[..a + 1]
    decreases |xs|
  {
    var init := xs[..|xs| - 1];
    var last := xs[|xs| - 1];
    var u := Unique(init);
    if j < |u| {
      assert Unique(xs)[i] == u[i] && Unique(xs)[j] == u[j];
      a := UniqueOrder(init, i, j);
      assert xs[..a + 1] == init[..a + 1];
    } else {
      assert last !in u && Unique(xs) == u + [last];
      assert u[i] in init;
      var k :| 0 <= k < |init| && init[k] == u[i];
      a := k;
      assert xs[..a + 1] == init[..a + 1];
    }
  }

  /** The outputs of `f` for each element in turn, one after the other. */
  function Chunked<T, L>(xs: seq<T>, f: T -> seq<L>): seq<L> {
    if xs == [] then []
    else Chunked(xs[..|xs| - 1], f) + f(xs[|xs| - 1])
  }

  /** The h-th output for element i sits somewhere in the whole. */
  lemma {:induction false} ChunkedAt<T, L>(xs: seq<T>, f: T -> seq<L>, i: nat, h: nat) returns (k: nat)
    requires i < |xs| && h < |f(xs[i])|
    ensures k < |Chunked(xs, f)| && Chunked(xs, f)[k] == f(xs[i])[h]
  {
    var n := |xs| - 1;
    var before := Chunked(xs[..n], f);
    assert Chunked(xs, f) == before + f(xs[n]);
    if i < n {
      assert xs[..n][i] == xs[i];
      k := ChunkedAt(xs[..n], f, i, h);
    } else {
      k := |before| + h;
    }
  }

  /** Every output of the whole is the h-th output for some element i. */
  lemma {:induction false} ChunkedFrom<T, L>(xs: seq<T>, f: T -> seq<L>, k: nat) returns (i: nat, h: nat)
    requires k < |Chunked(xs, f)|
    ensures i < |xs| && h < |f(xs[i])| && Chunked(xs, f)[k] == f(xs[i])[h]
  {
    var n := |xs| - 1;
    var before := Chunked(xs[..n], f);
    assert Chunked(xs, f) == before + f(xs[n]);
    if k < |before| {
      i, h := ChunkedFrom(xs[..n], f, k);
      assert xs[..n][i] == xs[i];
    } else {
      i, h := n, k - |before|;
    }
  }
}
