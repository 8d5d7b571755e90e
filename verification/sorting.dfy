/**
 * Sorting a sequence by an integer key, as `sort_unstable_by_key` does for
 * the move lists of both move orderings: the result is a permutation of the
 * input whose keys never decrease. The insertion sort keeps elements of
 * equal key in their input order (it is stable), which `sort_by` promises
 * and `sort_unstable_by_key` does not.
 */
module Sorting {
  /** Keys never decrease along the sequence. */
  predicate SortedBy<T>(s: seq<T>, key: T -> int)
  {
    forall i, j :: 0 <= i < j < |s| ==> key(s[i]) <= key(s[j])
  }

  /** Puts `x` before the first element whose key is not smaller. */
  function Insert<T>(x: T, s: seq<T>, key: T -> int): (r: seq<T>)
    requires SortedBy(s, key)
    ensures SortedBy(r, key)
    ensures multiset(r) == multiset(s) + multiset{x}
    ensures r[0] == x || (s != [] && r[0] == s[0])
  {
    if s == [] then [x]
    else if key(x) <= key(s[0]) then
      PrependSorted(x, s, key);
      [x] + s
    else
      TailSorted(s, key);
      var rest := Insert(x, s[1..], key);
      assert s == [s[0]] + s[1..];
      assert |s| > 1 ==> key(s[0]) <= key(s[1]);
      PrependSorted(s[0], rest, key);
      [s[0]] + rest
  }

  lemma TailSorted<T>(s: seq<T>, key: T -> int)
    requires s != [] && SortedBy(s, key)
    ensures SortedBy(s[1..], key)
  {
    forall i, j | 0 <= i < j < |s| - 1
      ensures key(s[1..][i]) <= key(s[1..][j])
    {
      assert s[1..][i] == s[i + 1] && s[1..][j] == s[j + 1];
    }
  }

  /** An element no larger than the head of a sorted sequence can go in front of it. */
  lemma PrependSorted<T>(x: T, s: seq<T>, key: T -> int)
    requires SortedBy(s, key) && (s != [] ==> key(x) <= key(s[0]))
    ensures SortedBy([x] + s, key)
  {
    var r := [x] + s;
    forall i, j | 0 <= i < j < |r|
      ensures key(r[i]) <= key(r[j])
    {
      assert r[j] == s[j - 1];
      if i > 0 {
        assert r[i] == s[i - 1];
      } else if j > 1 {
        assert key(s[0]) <= key(s[j - 1]);
      }
    }
  }

  /** Insertion sort by key. */
  function SortBy<T>(s: seq<T>, key: T -> int): (r: seq<T>)
    ensures SortedBy(r, key)
    ensures multiset(r) == multiset(s)
  {
    if s == [] then []
    else
      assert s == [s[0]] + s[1..];
      Insert(s[0], SortBy(s[1..], key), key)
  }

  /** A sequence already sorted by the key is left as it is. */
  lemma {:induction false} SortKeepsSorted<T>(s: seq<T>, key: T -> int)
    requires SortedBy(s, key)
    ensures SortBy(s, key) == s
  {
    if s != [] {
      assert SortedBy(s[1..], key);
      SortKeepsSorted(s[1..], key);
    }
  }

  /** Sorting twice is sorting once. */
  lemma SortIdempotent<T>(s: seq<T>, key: T -> int)
    ensures SortBy(SortBy(s, key), key) == SortBy(s, key)
  {
    SortKeepsSorted(SortBy(s, key), key);
  }

  /** Every element of the sorted sequence comes from the input, and the length is kept. */
  lemma SortByMembers<T>(s: seq<T>, key: T -> int)
    ensures |SortBy(s, key)| == |s|
    ensures forall k :: 0 <= k < |s| ==> SortBy(s, key)[k] in s
  {
    var r := SortBy(s, key);
    assert |r| == |multiset(r)| == |multiset(s)| == |s|;
    forall k | 0 <= k < |s|
      ensures r[k] in s
    {
      assert r[k] in multiset(r);
    }
  }

  /** The elements whose key is `v`, in order. */
  function Keyed<T>(s: seq<T>, key: T -> int, v: int): (r: seq<T>)
    ensures |r| <= |s|
  {
    if s == [] then [] else Only(s[0], key, v) + Keyed(s[1..], key, v)
  }

  /** Inserting `x` puts it in front of every element of its key and leaves the other keys' orders alone. */
  lemma {:induction false} InsertKeyed<T>(x: T, s: seq<T>, key: T -> int, v: int)
    requires SortedBy(s, key)
    ensures Keyed(Insert(x, s, key), key, v) == Only(x, key, v) + Keyed(s, key, v)
  {
    if s == [] || key(x) <= key(s[0]) {
      ConsKeyed(x, s, key, v);
    } else {
      TailSorted(s, key);
      InsertKeyed(x, s[1..], key, v);
      ConsKeyed(s[0], Insert(x, s[1..], key), key, v);
      assert s == [s[0]] + s[1..];
      ConsKeyed(s[0], s[1..], key, v);
      SwapOnly(s[0], x, Keyed(s[1..], key, v), key, v);
    }
  }

  /** The one-element list of `x` when its key is `v`, else nothing. */
  function Only<T>(x: T, key: T -> int, v: int): seq<T>
  {
    if key(x) == v then [x] else []
  }

  lemma ConsKeyed<T>(a: T, t: seq<T>, key: T -> int, v: int)
    ensures Keyed([a] + t, key, v) == Only(a, key, v) + Keyed(t, key, v)
  {
    assert ([a] + t)[1..] == t;
  }

  /** Two elements of different keys, at most one of them `v`, can trade places in front of a list. */
  lemma SwapOnly<T>(a: T, x: T, t: seq<T>, key: T -> int, v: int)
    requires key(a) < key(x)
    ensures Only(a, key, v) + (Only(x, key, v) + t) == Only(x, key, v) + (Only(a, key, v) + t)
  {
  }

  /** The sort is stable: for every key, the elements of that key keep their input order. */
  lemma {:induction false} SortByStable<T>(s: seq<T>, key: T -> int, v: int)
    ensures Keyed(SortBy(s, key), key, v) == Keyed(s, key, v)
  {
    if s != [] {
      SortByStable(s[1..], key, v);
      InsertKeyed(s[0], SortBy(s[1..], key), key, v);
    }
  }

  /** The first element of a key is the earliest element carrying it. */
  lemma {:induction false} KeyedFirst<T>(s: seq<T>, key: T -> int, v: int)
    requires Keyed(s, key, v) != []
    ensures exists i ::
              0 <= i < |s| && s[i] == Keyed(s, key, v)[0] && key(s[i]) == v
              && (forall j :: 0 <= j < i ==> key(s[j]) != v)
  {
    if key(s[0]) != v {
      KeyedFirst(s[1..], key, v);
      var i :| 0 <= i < |s[1..]| && s[1..][i] == Keyed(s[1..], key, v)[0] && key(s[1..][i]) == v
        && (forall j :: 0 <= j < i ==> key(s[1..][j]) != v);
      assert s[i + 1] == s[1..][i];
      assert forall j :: 1 <= j < i + 1 ==> s[j] == s[1..][j - 1];
    } else {
      assert s[0] == Keyed(s, key, v)[0];
    }
  }

  /** An element of the sequence makes its key's list non-empty. */
  lemma {:induction false} KeyedHas<T>(s: seq<T>, key: T -> int, i: nat)
    requires i < |s|
    ensures Keyed(s, key, key(s[i])) != []
  {
    if i > 0 {
      KeyedHas(s[1..], key, i - 1);
    }
  }
}
