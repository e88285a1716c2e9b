/** Python's `list.sort(key=..., reverse=...)`: a stable sort by a key.
    With `reverse` the order is descending, and elements with equal keys
    still keep their original relative order (Python reverses each
    comparison, not the result). The model is a stable insertion sort. */
module Sorting {

  /** `a` may stand before `b` in the sorted list. */
  predicate InOrder<T>(key: T -> real, reverse: bool, a: T, b: T)
  {
    if reverse then key(a) >= key(b) else key(a) <= key(b)
  }

  predicate Sorted<T>(s: seq<T>, key: T -> real, reverse: bool)
  {
    forall i, j :: 0 <= i < j < |s| ==> InOrder(key, reverse, s[i], s[j])
  }

  /** Inserts `x`, which came before every element of `s` in the input, in
      front of the first element it may precede. */
  function Insert<T>(x: T, s: seq<T>, key: T -> real, reverse: bool): seq<T>
  {
    if s == [] || InOrder(key, reverse, x, s[0]) then [x] + s
    else [s[0]] + Insert(x, s[1..], key, reverse)
  }

  function Sort<T>(s: seq<T>, key: T -> real, reverse: bool): seq<T>
  {
    if s == [] then [] else Insert(s[0], Sort(s[1..], key, reverse), key, reverse)
  }

  /** The elements of `s` whose key is `k`, in their order in `s`. */
  function WithKey<T>(s: seq<T>, key: T -> real, k: real): seq<T>
  {
    if s == [] then []
    else (if key(s[0]) == k then [s[0]] else []) + WithKey(s[1..], key, k)
  }

  lemma {:induction false} InsertPermutes<T>(x: T, s: seq<T>, key: T -> real, reverse: bool)
    ensures multiset(Insert(x, s, key, reverse)) == multiset(s) + multiset{x}
  {
    if s != [] && !InOrder(key, reverse, x, s[0]) {
      InsertPermutes(x, s[1..], key, reverse);
      assert s == [s[0]] + s[1..];
    }
  }

  /** The sort is a permutation of its input. */
  lemma {:induction false} SortPermutes<T>(s: seq<T>, key: T -> real, reverse: bool)
    ensures multiset(Sort(s, key, reverse)) == multiset(s)
    ensures |Sort(s, key, reverse)| == |s|
  {
    if s != [] {
      SortPermutes(s[1..], key, reverse);
      InsertPermutes(s[0], Sort(s[1..], key, reverse), key, reverse);
      assert s == [s[0]] + s[1..];
    }
    assert |multiset(Sort(s, key, reverse))| == |Sort(s, key, reverse)|;
  }

  lemma {:induction false} InsertSorted<T>(x: T, s: seq<T>, key: T -> real, reverse: bool)
    requires Sorted(s, key, reverse)
    ensures Sorted(Insert(x, s, key, reverse), key, reverse)
  {
    if s != [] && !InOrder(key, reverse, x, s[0]) {
      var t := Insert(x, s[1..], key, reverse);
      InsertSorted(x, s[1..], key, reverse);
      InsertPermutes(x, s[1..], key, reverse);
      forall j | 0 <= j < |t| ensures InOrder(key, reverse, s[0], t[j]) {
        assert t[j] in multiset(t);
        if t[j] != x {
          assert t[j] in multiset(s[1..]);
          var m :| 0 <= m < |s[1..]| && s[1..][m] == t[j];
          assert s[1 + m] == t[j];
        }
      }
    }
  }

  /** The sort orders its output by the key. */
  lemma {:induction false} SortSorted<T>(s: seq<T>, key: T -> real, reverse: bool)
    ensures Sorted(Sort(s, key, reverse), key, reverse)
  {
    if s != [] {
      SortSorted(s[1..], key, reverse);
      InsertSorted(s[0], Sort(s[1..], key, reverse), key, reverse);
    }
  }

  lemma {:induction false} InsertWithKey<T>(x: T, s: seq<T>, key: T -> real, reverse: bool, k: real)
    ensures WithKey(Insert(x, s, key, reverse), key, k)
         == (if key(x) == k then [x] else []) + WithKey(s, key, k)
  {
    if s != [] && !InOrder(key, reverse, x, s[0]) {
      InsertWithKey(x, s[1..], key, reverse, k);
      var t := Insert(x, s, key, reverse);
      assert t[1..] == Insert(x, s[1..], key, reverse);
    } else {
      assert ([x] + s)[1..] == s;
    }
  }

  /** Stability: for every key value, the elements with that key appear in
      the output in the same order as in the input. */
  lemma {:induction false} SortStable<T>(s: seq<T>, key: T -> real, reverse: bool, k: real)
    ensures WithKey(Sort(s, key, reverse), key, k) == WithKey(s, key, k)
  {
    if s != [] {
      SortStable(s[1..], key, reverse, k);
      InsertWithKey(s[0], Sort(s[1..], key, reverse), key, reverse, k);
    }
  }

  /** A list that is already in order is left as it is. */
  lemma {:induction false} SortOfSorted<T>(s: seq<T>, key: T -> real, reverse: bool)
    requires Sorted(s, key, reverse)
    ensures Sort(s, key, reverse) == s
  {
    if s != [] {
      assert Sorted(s[1..], key, reverse) by {
        forall i, j | 0 <= i < j < |s[1..]|
          ensures InOrder(key, reverse, s[1..][i], s[1..][j])
        {
          assert s[1..][i] == s[i + 1] && s[1..][j] == s[j + 1];
        }
      }
      SortOfSorted(s[1..], key, reverse);
      if |s| > 1 {
        assert InOrder(key, reverse, s[0], s[1..][0]);
      }
      assert [s[0]] + s[1..] == s;
    }
  }
}
