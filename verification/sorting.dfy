/**
 Stable sorting by an integer key, the model of Python's `sorted(xs, key=...)`.
 Every processor of the scorer sorts its events by timestamp before it looks at them;
 this module gives that sort once, with the facts its callers need: the result is
 ordered by the key, holds exactly the input's elements, and keeps elements with equal
 keys in their input order.
 */
module Sorting {

  /** `s` is non-decreasing under `key`. */
  ghost predicate SortedBy<T>(s: seq<T>, key: T -> int) {
    forall i, j :: 0 <= i < j < |s| ==> key(s[i]) <= key(s[j])
  }

  /** Places `x` after every element whose key is at most its own (so equal keys keep
      their input order, as Python's stable sort does). */
  function Insert<T>(s: seq<T>, x: T, key: T -> int): (r: seq<T>)
    requires SortedBy(s, key)
    ensures SortedBy(r, key)
    ensures multiset(r) == multiset(s) + multiset{x}
    ensures |r| == |s| + 1
  {
    if |s| == 0 then [x]
    else if key(s[|s| - 1]) <= key(x) then s + [x]
    else
      var front := s[..|s| - 1];
      assert s == front + [s[|s| - 1]];
      var r' := Insert(front, x, key);
      InsertBelow(front, x, r', key, s[|s| - 1]);
      r' + [s[|s| - 1]]
  }

  /** Every element of `r`, which holds `s` and `x`, is below a bound above both. */
  lemma InsertBelow<T>(s: seq<T>, x: T, r: seq<T>, key: T -> int, b: T)
    requires multiset(r) == multiset(s) + multiset{x}
    requires forall k :: 0 <= k < |s| ==> key(s[k]) <= key(b)
    requires key(x) <= key(b)
    ensures forall k :: 0 <= k < |r| ==> key(r[k]) <= key(b)
  {
    forall k | 0 <= k < |r| ensures key(r[k]) <= key(b) {
      assert r[k] in multiset(r);
      assert r[k] in multiset(s) || r[k] == x;
      if r[k] in multiset(s) {
        var j :| 0 <= j < |s| && s[j] == r[k];
      }
    }
  }

  /** Python's `sorted(s, key=key)`: an insertion sort that is stable. */
  function SortBy<T>(s: seq<T>, key: T -> int): (r: seq<T>)
    ensures SortedBy(r, key)
    ensures multiset(r) == multiset(s)
    ensures |r| == |s|
  {
    if |s| == 0 then []
    else
      assert s == s[..|s| - 1] + [s[|s| - 1]];
      Insert(SortBy(s[..|s| - 1], key), s[|s| - 1], key)
  }

  /** The elements of `s` whose key is `k`, in the order of `s`. */
  function Keyed<T>(s: seq<T>, key: T -> int, k: int): seq<T> {
    if |s| == 0 then []
    else Keyed(s[..|s| - 1], key, k) + (if key(s[|s| - 1]) == k then [s[|s| - 1]] else [])
  }

  lemma KeyedSnoc<T>(s: seq<T>, x: T, key: T -> int, k: int)
    ensures Keyed(s + [x], key, k) == Keyed(s, key, k) + (if key(x) == k then [x] else [])
  {
    assert (s + [x])[..|s|] == s;
  }

  /** One step of `Insert` below the last element. */
  lemma InsertStep<T>(s: seq<T>, x: T, key: T -> int)
    requires SortedBy(s, key) && |s| > 0 && key(x) < key(s[|s| - 1])
    ensures SortedBy(s[..|s| - 1], key)
    ensures Insert(s, x, key) == Insert(s[..|s| - 1], x, key) + [s[|s| - 1]]
  {
  }

  /** Two pieces of which one is empty can be swapped. */
  lemma SwapEmpty<T>(a: seq<T>, b: seq<T>, c: seq<T>)
    requires b == [] || c == []
    ensures a + b + c == a + c + b
  {
  }

  /** Inserting `x` adds it after every element of equal key. */
  lemma {:induction false} InsertStable<T>(s: seq<T>, x: T, key: T -> int, k: int)
    requires SortedBy(s, key)
    ensures Keyed(Insert(s, x, key), key, k) == Keyed(s, key, k) + (if key(x) == k then [x] else [])
  {
    if |s| == 0 || key(s[|s| - 1]) <= key(x) {
      assert Insert(s, x, key) == s + [x];
      KeyedSnoc(s, x, key, k);
    } else {
      var front, last := s[..|s| - 1], s[|s| - 1];
      InsertStep(s, x, key);
      InsertStable(front, x, key, k);
      KeyedSnoc(Insert(front, x, key), last, key, k);
      assert s == front + [last];
      KeyedSnoc(front, last, key, k);
      SwapEmpty(Keyed(front, key, k), if key(x) == k then [x] else [], if key(last) == k then [last] else []);
    }
  }

  /** Stability: for every key, the elements carrying it keep their input order. */
  lemma {:induction false} SortByStable<T>(s: seq<T>, key: T -> int, k: int)
    ensures Keyed(SortBy(s, key), key, k) == Keyed(s, key, k)
  {
    if |s| > 0 {
      var front, last := s[..|s| - 1], s[|s| - 1];
      SortByStable(front, key, k);
      InsertStable(SortBy(front, key), last, key, k);
    }
  }

  /** The element of a sorted sequence at index `i` has a key bounded by the ends. */
  lemma SortedEnds<T>(s: seq<T>, key: T -> int, i: int)
    requires SortedBy(s, key) && 0 <= i < |s|
    ensures key(s[0]) <= key(s[i]) <= key(s[|s| - 1])
  {
  }

  /** Two sequences with the same elements hold the same members. */
  lemma SameMembers<T>(a: seq<T>, b: seq<T>, x: T)
    requires multiset(a) == multiset(b)
    ensures x in a <==> x in b
  {
    assert x in a <==> x in multiset(a);
    assert x in b <==> x in multiset(b);
  }
}
