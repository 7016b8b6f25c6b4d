/**
 * The stable descending sort both clients and the backend rely on: JavaScript's
 * `rows.sort((a, b) => b.score - a.score)` and Python's `list.sort(key=..., reverse=True)`
 * both order by a numeric key, highest first, and keep equal keys in their original order.
 * `Take` is `slice(0, n)`.
 */
module Sorting {

  /** Keys never increase along the sequence. */
  ghost predicate SortedDesc<T>(s: seq<T>, key: T -> int) {
    forall i, j :: 0 <= i < j < |s| ==> key(s[i]) >= key(s[j])
  }

  /** Insert `x` before the first element whose key is not above its own. */
  function Insert<T>(x: T, s: seq<T>, key: T -> int): (r: seq<T>)
    requires SortedDesc(s, key)
    ensures SortedDesc(r, key)
    ensures multiset(r) == multiset(s) + multiset{x}
    ensures |r| == |s| + 1
    ensures forall y :: y in r ==> y == x || y in s
  {
    if s == [] || key(s[0]) <= key(x) then
      ConsSorted(x, s, key);
      [x] + s
    else
      var t := Insert(x, s[1..], key);
      assert s == [s[0]] + s[1..];
      HeadAboveInserted(x, s, key, t);
      ConsSorted(s[0], t, key);
      [s[0]] + t
  }

  /** An element no lower than every element of a sorted sequence can go in front of it. */
  lemma ConsSorted<T>(h: T, t: seq<T>, key: T -> int)
    requires SortedDesc(t, key)
    requires forall j :: 0 <= j < |t| ==> key(h) >= key(t[j])
    ensures SortedDesc([h] + t, key)
  {
    var r := [h] + t;
    forall i, j | 0 <= i < j < |r| ensures key(r[i]) >= key(r[j]) {
      assert r[j] == t[j - 1];
      if i > 0 {
        assert r[i] == t[i - 1];
      }
    }
  }

  /** The head of a sorted sequence stays no lower than the rest with a lower `x` inserted. */
  lemma HeadAboveInserted<T>(x: T, s: seq<T>, key: T -> int, t: seq<T>)
    requires SortedDesc(s, key) && s != [] && key(s[0]) > key(x)
    requires forall y :: y in t ==> y == x || y in s[1..]
    ensures forall j :: 0 <= j < |t| ==> key(s[0]) >= key(t[j])
  {
    forall j | 0 <= j < |t| ensures key(s[0]) >= key(t[j]) {
      assert t[j] in t;
      if t[j] != x {
        var k :| 0 <= k < |s[1..]| && s[1..][k] == t[j];
        assert s[k + 1] == t[j];
      }
    }
  }

  /** The elements whose key is `k`, in their order: what a stable sort must leave alone. */
  function WithKey<T>(s: seq<T>, key: T -> int, k: int): seq<T> {
    if s == [] then [] else (if key(s[0]) == k then [s[0]] else []) + WithKey(s[1..], key, k)
  }

  lemma WithKeyCons<T>(x: T, t: seq<T>, key: T -> int, k: int)
    ensures WithKey([x] + t, key, k) == (if key(x) == k then [x] else []) + WithKey(t, key, k)
  {
    assert ([x] + t)[0] == x && ([x] + t)[1..] == t;
  }

  lemma {:induction false} WithKeyAppend<T>(a: seq<T>, b: seq<T>, key: T -> int, k: int)
    ensures WithKey(a + b, key, k) == WithKey(a, key, k) + WithKey(b, key, k)
  {
    if a == [] {
      assert a + b == b;
    } else {
      assert a + b == [a[0]] + (a[1..] + b);
      WithKeyCons(a[0], a[1..] + b, key, k);
      WithKeyAppend(a[1..], b, key, k);
    }
  }

  /** Inserting `x` puts it in front of every element with the same key. */
  lemma {:induction false} WithKeyInsert<T>(x: T, s: seq<T>, key: T -> int, k: int)
    requires SortedDesc(s, key)
    ensures WithKey(Insert(x, s, key), key, k) == (if key(x) == k then [x] else []) + WithKey(s, key, k)
  {
    if s == [] || key(s[0]) <= key(x) {
      WithKeyCons(x, s, key, k);
    } else {
      assert s == [s[0]] + s[1..];
      assert SortedDesc(s[1..], key) by {
        forall i, j | 0 <= i < j < |s[1..]| ensures key(s[1..][i]) >= key(s[1..][j]) {
          assert s[1..][i] == s[i + 1] && s[1..][j] == s[j + 1];
        }
      }
      WithKeyInsert(x, s[1..], key, k);
      WithKeyCons(s[0], Insert(x, s[1..], key), key, k);
      WithKeyCons(s[0], s[1..], key, k);
    }
  }

  lemma InsertStable<T>(x: T, s: seq<T>, key: T -> int)
    requires SortedDesc(s, key)
    ensures forall k :: WithKey(Insert(x, s, key), key, k) == (if key(x) == k then [x] else []) + WithKey(s, key, k)
  {
    forall k ensures WithKey(Insert(x, s, key), key, k) == (if key(x) == k then [x] else []) + WithKey(s, key, k) {
      WithKeyInsert(x, s, key, k);
    }
  }

  /**
   * Stable sort by `key`, highest first (insertion sort; each element goes before the equal
   * ones that followed it): the elements of each key keep their input order.
   */
  function SortDesc<T>(s: seq<T>, key: T -> int): (r: seq<T>)
    ensures SortedDesc(r, key)
    ensures multiset(r) == multiset(s)
    ensures |r| == |s|
    ensures forall k :: WithKey(r, key, k) == WithKey(s, key, k)
  {
    if s == [] then []
    else
      assert s == [s[0]] + s[1..];
      InsertStable(s[0], SortDesc(s[1..], key), key);
      Insert(s[0], SortDesc(s[1..], key), key)
  }

  /** `s.slice(0, n)`. */
  function Take<T>(s: seq<T>, n: nat): (r: seq<T>)
    ensures |r| == if |s| < n then |s| else n
    ensures r == s[..|r|]
  {
    if |s| < n then s else s[..n]
  }

  /** In a sorted sequence every element past position `k` is no higher than any before it. */
  lemma PrefixIsHighest<T>(t: seq<T>, key: T -> int, k: nat)
    requires SortedDesc(t, key) && k <= |t|
    ensures forall y :: y in multiset(t) - multiset(t[..k]) ==>
              forall x :: x in t[..k] ==> key(x) >= key(y)
  {
    var r, rest := t[..k], t[k..];
    assert t == r + rest;
    assert multiset(t) - multiset(r) == multiset(rest);
    RestBelowPrefix(t, key, k);
  }

  lemma RestBelowPrefix<T>(t: seq<T>, key: T -> int, k: nat)
    requires SortedDesc(t, key) && k <= |t|
    ensures forall x, y :: x in t[..k] && y in t[k..] ==> key(x) >= key(y)
  {
    forall x, y | x in t[..k] && y in t[k..] ensures key(x) >= key(y) {
      var i :| 0 <= i < k && t[..k][i] == x;
      var j :| 0 <= j < |t| - k && t[k..][j] == y;
      assert t[i] == x && t[k + j] == y;
    }
  }

  /**
   * The first `n` of the sorted elements are the `n` highest: they are sorted, they come from
   * the input, and every input element left out has a key no greater than any element kept.
   * Among equal keys the kept ones are the first in input order.
   */
  lemma TopIsHighest<T>(s: seq<T>, key: T -> int, n: nat)
    ensures SortedDesc(Take(SortDesc(s, key), n), key)
    ensures multiset(Take(SortDesc(s, key), n)) <= multiset(s)
    ensures forall y :: y in multiset(s) - multiset(Take(SortDesc(s, key), n)) ==>
              forall x :: x in Take(SortDesc(s, key), n) ==> key(x) >= key(y)
    ensures forall k :: WithKey(Take(SortDesc(s, key), n), key, k) <= WithKey(s, key, k)
  {
    var t := SortDesc(s, key);
    var r := Take(t, n);
    assert t == r + t[|r|..];
    assert multiset(t) == multiset(r) + multiset(t[|r|..]);
    PrefixIsHighest(t, key, |r|);
    PrefixWithKey(t, key, |r|);
  }

  /** A prefix holds, for every key, a prefix of the elements with that key. */
  lemma PrefixWithKey<T>(t: seq<T>, key: T -> int, m: nat)
    requires m <= |t|
    ensures forall k :: WithKey(t[..m], key, k) <= WithKey(t, key, k)
  {
    assert t == t[..m] + t[m..];
    forall k ensures WithKey(t[..m], key, k) <= WithKey(t, key, k) {
      WithKeyAppend(t[..m], t[m..], key, k);
    }
  }
}
