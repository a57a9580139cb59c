/**
 * Ordering records by timestamp (`sort_index()` after `set_index("DataHora")`).
 * The sort here is a stable insertion sort; pandas only promises the
 * ascending order and that no record is lost or duplicated, and that is what
 * the loaders state about their results.
 */
module TimeSort {

  predicate Sorted<T>(s: seq<T>, key: T -> int)
  {
    forall i, j :: 0 <= i < j < |s| ==> key(s[i]) <= key(s[j])
  }

  /** Puts `x` after every element whose key is not larger than its own. */
  function Insert<T>(x: T, s: seq<T>, key: T -> int): (r: seq<T>)
    requires Sorted(s, key)
    ensures Sorted(r, key)
    ensures multiset(r) == multiset(s) + multiset{x}
    ensures |r| == |s| + 1
    ensures forall i :: 0 <= i < |r| ==> r[i] == x || r[i] in s
  {
    if s == [] || key(s[|s| - 1]) <= key(x) then
      s + [x]
    else
      var init, last := s[..|s| - 1], s[|s| - 1];
      assert s == init + [last];
      var head := Insert(x, init, key);
      InsertTail(head, last, key);
      head + [last]
  }

  lemma InsertTail<T>(head: seq<T>, last: T, key: T -> int)
    requires Sorted(head, key)
    requires forall i :: 0 <= i < |head| ==> key(head[i]) <= key(last)
    ensures Sorted(head + [last], key)
  {
  }

  /** The records in ascending timestamp order, ties kept in input order. */
  function SortByKey<T>(s: seq<T>, key: T -> int): (r: seq<T>)
    ensures Sorted(r, key)
    ensures multiset(r) == multiset(s)
    ensures |r| == |s|
  {
    if s == [] then []
    else
      assert s == s[..|s| - 1] + [s[|s| - 1]];
      Insert(s[|s| - 1], SortByKey(s[..|s| - 1], key), key)
  }

  /** Dropping the last element keeps a sequence sorted. */
  lemma SortedInit<T>(s: seq<T>, key: T -> int)
    requires Sorted(s, key) && s != []
    ensures Sorted(s[..|s| - 1], key)
  {
  }

  /** An element whose key is not below the last one's is appended. */
  lemma InsertLast<T>(x: T, s: seq<T>, key: T -> int)
    requires Sorted(s, key) && (s == [] || key(s[|s| - 1]) <= key(x))
    ensures Insert(x, s, key) == s + [x]
  {
  }

  /** Sorting what is already sorted changes nothing, so sorting twice is sorting once. */
  lemma {:induction false} SortIdempotent<T>(s: seq<T>, key: T -> int)
    requires Sorted(s, key)
    ensures SortByKey(s, key) == s
  {
    if s != [] {
      var n := |s| - 1;
      SortedInit(s, key);
      SortIdempotent(s[..n], key);
      assert n > 0 ==> s[..n][n - 1] == s[n - 1];
      InsertLast(s[n], s[..n], key);
      assert s == s[..n] + [s[n]];
    }
  }

  lemma SortTwice<T>(s: seq<T>, key: T -> int)
    ensures SortByKey(SortByKey(s, key), key) == SortByKey(s, key)
  {
    SortIdempotent(SortByKey(s, key), key);
  }
}
