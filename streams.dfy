/**
 * The two stream operations the lead-time service's pipelines use:
 * `filter`, and `sorted(Comparator.comparing(key))`, which is stable.
 */
module Streams {

  /** `stream().filter(p).toList()`: the elements satisfying `p`, in their order */
  function Filter<T(==)>(s: seq<T>, p: T -> bool): (r: seq<T>)
    ensures |r| <= |s|
    ensures forall i :: 0 <= i < |r| ==> r[i] in s && p(r[i])
    ensures forall i :: 0 <= i < |s| && p(s[i]) ==> s[i] in r
  {
    if s == [] then [] else (if p(s[0]) then [s[0]] else []) + Filter(s[1..], p)
  }

  /** Filtering a concatenation filters each part and keeps them in order. */
  lemma {:induction false} FilterConcat<T>(a: seq<T>, b: seq<T>, p: T -> bool)
    ensures Filter(a + b, p) == Filter(a, p) + Filter(b, p)
  {
    if a == [] {
      assert a + b == b;
    } else {
      assert (a + b)[1..] == a[1..] + b;
      FilterConcat(a[1..], b, p);
    }
  }

  /** `s` is in non-decreasing order of `key` */
  predicate SortedBy<T>(s: seq<T>, key: T -> int) {
    forall i, j :: 0 <= i < j < |s| ==> key(s[i]) <= key(s[j])
  }

  /** The elements of `s` whose key is `k`, in their order */
  function SameKey<T(==)>(s: seq<T>, key: T -> int, k: int): seq<T> {
    Filter(s, HasKey(key, k))
  }

  function HasKey<T>(key: T -> int, k: int): T -> bool {
    (x: T) => key(x) == k
  }

  /** Put `x` in front of the first element whose key is not smaller */
  function Insert<T(==)>(x: T, s: seq<T>, key: T -> int): (r: seq<T>)
    ensures |r| == |s| + 1
    ensures multiset(r) == multiset(s) + multiset{x}
    ensures forall i :: 0 <= i < |r| ==> r[i] == x || r[i] in s
  {
    if s == [] || key(x) <= key(s[0]) then [x] + s
    else
      assert s == [s[0]] + s[1..];
      [s[0]] + Insert(x, s[1..], key)
  }

  /** Inserting into a sorted sequence keeps it sorted. */
  lemma {:induction false} InsertSorted<T>(x: T, s: seq<T>, key: T -> int)
    requires SortedBy(s, key)
    ensures SortedBy(Insert(x, s, key), key)
  {
    if s != [] && key(x) > key(s[0]) {
      var t := Insert(x, s[1..], key);
      InsertSorted(x, s[1..], key);
      forall j | 0 <= j < |t| ensures key(s[0]) <= key(t[j]) {
        if t[j] != x {
          var i :| 0 <= i < |s[1..]| && s[1..][i] == t[j];
          assert s[1..][i] == s[i + 1];
        }
      }
      assert Insert(x, s, key) == [s[0]] + t;
    }
  }

  /** `sorted(Comparator.comparing(key))`, by stable insertion */
  function SortBy<T(==)>(s: seq<T>, key: T -> int): (r: seq<T>)
    ensures |r| == |s|
    ensures multiset(r) == multiset(s)
    ensures forall i :: 0 <= i < |r| ==> r[i] in s
    ensures SortedBy(r, key)
  {
    if s == [] then []
    else
      assert s == [s[0]] + s[1..];
      InsertSorted(s[0], SortBy(s[1..], key), key);
      Insert(s[0], SortBy(s[1..], key), key)
  }

  /** The elements of `[x]` whose key is `k` */
  lemma SameKeyOfOne<T>(x: T, key: T -> int, k: int)
    ensures SameKey([x], key, k) == if key(x) == k then [x] else []
  {
    assert [x][1..] == [];
  }

  /** `SameKey` splits off the first element. */
  lemma SameKeyCons<T>(x: T, s: seq<T>, key: T -> int, k: int)
    ensures SameKey([x] + s, key, k) == (if key(x) == k then [x] else []) + SameKey(s, key, k)
  {
    FilterConcat([x], s, HasKey(key, k));
    SameKeyOfOne(x, key, k);
  }

  lemma SwapOneEmpty<T>(a: seq<T>, b: seq<T>, c: seq<T>)
    requires a == [] || b == []
    ensures a + (b + c) == b + (a + c)
  {
    if a == [] {
      assert a + (b + c) == b + c == b + (a + c);
    } else {
      assert a + (b + c) == a + c == b + (a + c);
    }
  }

  /** Inserting `x` adds it in front of the elements that share its key. */
  lemma {:induction false} InsertSameKey<T>(x: T, s: seq<T>, key: T -> int, k: int)
    ensures SameKey(Insert(x, s, key), key, k) ==
      (if key(x) == k then [x] else []) + SameKey(s, key, k)
  {
    if s == [] || key(x) <= key(s[0]) {
      assert Insert(x, s, key) == [x] + s;
      SameKeyCons(x, s, key, k);
    } else {
      var t := Insert(x, s[1..], key);
      assert Insert(x, s, key) == [s[0]] + t;
      InsertSameKey(x, s[1..], key, k);
      SameKeyCons(s[0], t, key, k);
      assert [s[0]] + s[1..] == s;
      SameKeyCons(s[0], s[1..], key, k);
      // `x` and `s[0]` have different keys, so at most one of them is kept
      SwapOneEmpty(if key(s[0]) == k then [s[0]] else [], if key(x) == k then [x] else [],
        SameKey(s[1..], key, k));
    }
  }

  /** The sort is stable: elements with equal keys keep their input order. */
  lemma {:induction false} SortByStable<T>(s: seq<T>, key: T -> int, k: int)
    ensures SameKey(SortBy(s, key), key, k) == SameKey(s, key, k)
  {
    if s != [] {
      SortByStable(s[1..], key, k);
      InsertSameKey(s[0], SortBy(s[1..], key), key, k);
    }
  }

  /** An element no larger than the head goes in front. */
  lemma InsertFront<T>(x: T, s: seq<T>, key: T -> int)
    requires s == [] || key(x) <= key(s[0])
    ensures Insert(x, s, key) == [x] + s
  {
  }

  /** Sorting what is already in key order changes nothing. */
  lemma {:induction false} SortBySorted<T>(s: seq<T>, key: T -> int)
    requires SortedBy(s, key)
    ensures SortBy(s, key) == s
  {
    if s != [] {
      var t := s[1..];
      assert SortedBy(t, key) by {
        forall i, j | 0 <= i < j < |t| ensures key(t[i]) <= key(t[j]) {
          assert t[i] == s[i + 1] && t[j] == s[j + 1];
        }
      }
      SortBySorted(t, key);
      if t != [] {
        assert t[0] == s[1];
      }
      InsertFront(s[0], t, key);
      assert [s[0]] + t == s;
    }
  }
}
