/** An insertion sort over sequences, ordered by a caller-supplied
    comparison: the model's stand-in for pandas `sort_values` and SQL
    `ORDER BY`. It is proved to return a sorted permutation of its input. */
module Sorting {

  /** `le` is a total preorder: any two elements compare, and comparisons chain. */
  ghost predicate TotalPreorder<T(!new)>(le: (T, T) -> bool) {
    (forall a, b :: le(a, b) || le(b, a))
    && (forall a, b, c :: le(a, b) && le(b, c) ==> le(a, c))
  }

  ghost predicate Sorted<T>(s: seq<T>, le: (T, T) -> bool) {
    forall i, j :: 0 <= i < j < |s| ==> le(s[i], s[j])
  }

  /** Places x before the first element it does not exceed. */
  function Insert<T(!new)>(x: T, s: seq<T>, le: (T, T) -> bool): (r: seq<T>)
    requires TotalPreorder(le) && Sorted(s, le)
    ensures multiset(r) == multiset(s) + multiset{x}
    ensures Sorted(r, le)
  {
    if s == [] then [x]
    else if le(x, s[0]) then [x] + s
    else
      var rest := Insert(x, s[1..], le);
      assert s == [s[0]] + s[1..];
      assert forall k :: 0 <= k < |rest| ==> le(s[0], rest[k]) by {
        forall k | 0 <= k < |rest| ensures le(s[0], rest[k]) {
          assert rest[k] in multiset(rest);
          assert rest[k] in multiset(s[1..]) || rest[k] == x;
          if rest[k] != x {
            var j :| 0 <= j < |s[1..]| && s[1..][j] == rest[k];
            assert s[j + 1] == rest[k];
          }
        }
      }
      [s[0]] + rest
  }

  /** The elements of s in an order that respects `le`. */
  function Sort<T(!new)>(s: seq<T>, le: (T, T) -> bool): (r: seq<T>)
    requires TotalPreorder(le)
    ensures multiset(r) == multiset(s)
    ensures Sorted(r, le)
  {
    if s == [] then []
    else
      assert s == [s[0]] + s[1..];
      Insert(s[0], Sort(s[1..], le), le)
  }
}
