/**
 * Python's `sorted(xs, key=...)` and `list.sort()`: a stable sort by an
 * integer key. The result is ordered by the key, is a permutation of the
 * input, and keeps the input order among elements with equal keys; those
 * three facts determine the result (StableSortUnique), so any stable sort,
 * TimSort included, produces the same sequence as the insertion sort below.
 */
module Sorting {

  /** Non-decreasing by `key`. */
  predicate SortedBy<T>(s: seq<T>, key: T -> int) {
    forall i, j :: 0 <= i < j < |s| ==> key(s[i]) <= key(s[j])
  }

  /** The elements of `s` whose key is `k`, in their order in `s`. */
  function WithKey<T>(s: seq<T>, key: T -> int, k: int): seq<T> {
    if s == [] then []
    else (if key(s[0]) == k then [s[0]] else []) + WithKey(s[1..], key, k)
  }

  /** Puts `x` before the first element whose key is not smaller than its own. */
  function Insert<T>(x: T, s: seq<T>, key: T -> int): seq<T> {
    if s == [] || key(x) <= key(s[0]) then [x] + s
    else [s[0]] + Insert(x, s[1..], key)
  }

  function StableSort<T>(s: seq<T>, key: T -> int): (r: seq<T>)
    ensures SortedBy(r, key)
    ensures multiset(r) == multiset(s)
    ensures forall k :: WithKey(r, key, k) == WithKey(s, key, k)
  {
    if s == [] then []
    else
      var t := StableSort(s[1..], key);
      InsertSorted(s[0], t, key);
      InsertMultiset(s[0], t, key);
      InsertWithKey(s[0], t, key);
      assert s == [s[0]] + s[1..];
      Insert(s[0], t, key)
  }

  lemma {:induction false} InsertMultiset<T>(x: T, s: seq<T>, key: T -> int)
    ensures multiset(Insert(x, s, key)) == multiset(s) + multiset{x}
  {
    if s != [] && key(s[0]) < key(x) {
      InsertMultiset(x, s[1..], key);
      assert s == [s[0]] + s[1..];
    }
  }

  lemma {:induction false} InsertSorted<T>(x: T, s: seq<T>, key: T -> int)
    requires SortedBy(s, key)
    ensures SortedBy(Insert(x, s, key), key)
  {
    if s != [] && key(s[0]) < key(x) {
      var t := Insert(x, s[1..], key);
      InsertSorted(x, s[1..], key);
      InsertMultiset(x, s[1..], key);
      var r := [s[0]] + t;
      forall j | 0 < j < |r| ensures key(r[0]) <= key(r[j]) {
        assert r[j] in multiset(t);
        if r[j] != x {
          assert r[j] in s[1..];
        }
      }
    }
  }

  lemma {:induction false} InsertWithKey<T>(x: T, s: seq<T>, key: T -> int)
    ensures forall k :: WithKey(Insert(x, s, key), key, k) ==
                        (if key(x) == k then [x] else []) + WithKey(s, key, k)
  {
    if s != [] && key(s[0]) < key(x) {
      InsertWithKey(x, s[1..], key);
      var r := [s[0]] + Insert(x, s[1..], key);
      assert r[1..] == Insert(x, s[1..], key);
    } else {
      var r := [x] + s;
      assert r[1..] == s;
    }
  }

  lemma {:induction false} WithKeyMember<T>(s: seq<T>, key: T -> int, x: T)
    requires x in s
    ensures x in WithKey(s, key, key(x))
  {
    if s[0] != x {
      WithKeyMember(s[1..], key, x);
    }
  }

  lemma {:induction false} WithKeySubset<T>(s: seq<T>, key: T -> int, k: int, x: T)
    requires x in WithKey(s, key, k)
    ensures x in s
  {
    if !(key(s[0]) == k && x == s[0]) {
      WithKeySubset(s[1..], key, k, x);
    }
  }

  lemma WithKeyNoneEmpty<T>(s: seq<T>, key: T -> int)
    requires forall k :: WithKey(s, key, k) == []
    ensures s == []
  {
    if s != [] {
      assert s[0] in WithKey(s, key, key(s[0]));
    }
  }

  /**
   * Two sequences that are both ordered by `key` and agree, key by key, on
   * the order of their elements are equal: sortedness and stability pin
   * the result of a stable sort down completely.
   */
  lemma {:induction false} StableSortUnique<T>(r1: seq<T>, r2: seq<T>, key: T -> int)
    requires SortedBy(r1, key) && SortedBy(r2, key)
    requires forall k :: WithKey(r1, key, k) == WithKey(r2, key, k)
    ensures r1 == r2
  {
    if r1 == [] {
      WithKeyNoneEmpty(r2, key);
    } else if r2 == [] {
      WithKeyNoneEmpty(r1, key);
    } else {
      SameHead(r1, r2, key);
      SameTails(r1, r2, key);
      StableSortUnique(r1[1..], r2[1..], key);
      assert r1 == [r1[0]] + r1[1..];
      assert r2 == [r2[0]] + r2[1..];
    }
  }

  /** Sorted sequences that agree key by key start with the same element. */
  lemma SameHead<T>(r1: seq<T>, r2: seq<T>, key: T -> int)
    requires r1 != [] && r2 != []
    requires SortedBy(r1, key) && SortedBy(r2, key)
    requires forall k :: WithKey(r1, key, k) == WithKey(r2, key, k)
    ensures r1[0] == r2[0]
  {
    var a, b := r1[0], r2[0];
    InOtherSorted(r2, r1, key);
    InOtherSorted(r1, r2, key);
    WithKeyOfHead(r1, key);
    WithKeyOfHead(r2, key);
    assert WithKey(r1, key, key(a)) == WithKey(r2, key, key(b));
  }

  /** The head of a sequence heads the elements that share its key. */
  lemma WithKeyOfHead<T>(s: seq<T>, key: T -> int)
    requires s != []
    ensures WithKey(s, key, key(s[0])) != [] && WithKey(s, key, key(s[0]))[0] == s[0]
  {
    assert WithKey(s, key, key(s[0])) == [s[0]] + WithKey(s[1..], key, key(s[0]));
  }

  /** The head of `r1` occurs in `r2`, so it is not below the head of `r2`. */
  lemma InOtherSorted<T>(r1: seq<T>, r2: seq<T>, key: T -> int)
    requires r1 != [] && r2 != []
    requires SortedBy(r2, key)
    requires forall k :: WithKey(r1, key, k) == WithKey(r2, key, k)
    ensures key(r2[0]) <= key(r1[0])
  {
    var b := r1[0];
    WithKeyMember(r1, key, b);
    assert WithKey(r1, key, key(b)) == WithKey(r2, key, key(b));
    WithKeySubset(r2, key, key(b), b);
    HeadIsLeast(r2, key, b);
  }

  lemma HeadIsLeast<T>(r: seq<T>, key: T -> int, x: T)
    requires SortedBy(r, key) && x in r
    ensures key(r[0]) <= key(x)
  {
    var i :| 0 <= i < |r| && r[i] == x;
    if i > 0 {
      assert key(r[0]) <= key(r[i]);
    }
  }

  /** Dropping a common first element keeps the key-by-key agreement. */
  lemma SameTails<T>(r1: seq<T>, r2: seq<T>, key: T -> int)
    requires r1 != [] && r2 != [] && r1[0] == r2[0]
    requires forall k :: WithKey(r1, key, k) == WithKey(r2, key, k)
    ensures forall k :: WithKey(r1[1..], key, k) == WithKey(r2[1..], key, k)
  {
    forall k ensures WithKey(r1[1..], key, k) == WithKey(r2[1..], key, k) {
      var p := if key(r1[0]) == k then [r1[0]] else [];
      assert WithKey(r1, key, k) == p + WithKey(r1[1..], key, k);
      assert WithKey(r2, key, k) == p + WithKey(r2[1..], key, k);
      assert WithKey(r1[1..], key, k) == WithKey(r1, key, k)[|p|..];
    }
  }

  /** The key under which `list.sort()` orders a list of day numbers. */
  function NatKey(n: nat): int { n }

  /** `xs.sort()` on a list of day numbers. */
  function SortAscending(xs: seq<nat>): (r: seq<nat>)
    ensures SortedBy(r, NatKey)
    ensures multiset(r) == multiset(xs)
  {
    StableSort(xs, NatKey)
  }
}
