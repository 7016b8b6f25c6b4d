/**
 * Insertion-ordered dictionaries, as JavaScript `Map` and Python `dict` are: a sequence of
 * (key, value) entries. Writing an existing key replaces its value in place; writing a new
 * key appends it; iteration follows the sequence.
 */
module OrderedMaps {
  import opened Wrappers

  /** The set of keys of the entries. */
  function KeySet<K, V>(m: seq<(K, V)>): (ks: set<K>)
    ensures forall i :: 0 <= i < |m| ==> m[i].0 in ks
  {
    if m == [] then {} else {m[0].0} + KeySet(m[1..])
  }

  /** Every key in the set comes from some entry. */
  lemma {:induction false} KeySetWitness<K, V>(m: seq<(K, V)>, x: K) returns (i: nat)
    requires x in KeySet(m)
    ensures i < |m| && m[i].0 == x
  {
    if m[0].0 == x {
      i := 0;
    } else {
      var j := KeySetWitness(m[1..], x);
      i := j + 1;
    }
  }

  /** A key that no entry carries is not in the key set. */
  lemma {:induction false} NotInKeySet<K, V>(m: seq<(K, V)>, x: K)
    requires forall i :: 0 <= i < |m| ==> m[i].0 != x
    ensures x !in KeySet(m)
  {
    if m != [] {
      NotInKeySet(m[1..], x);
    }
  }

  /** No key occurs twice. */
  ghost predicate DistinctKeys<K, V>(m: seq<(K, V)>) {
    forall i, j :: 0 <= i < j < |m| ==> m[i].0 != m[j].0
  }

  /** In distinct entries the first key does not occur again. */
  lemma DistinctHead<K, V>(m: seq<(K, V)>)
    ensures DistinctKeys(m) && m != [] ==> m[0].0 !in KeySet(m[1..])
  {
    if DistinctKeys(m) && m != [] {
      NotInKeySet(m[1..], m[0].0);
    }
  }

  /** `m.get(k)`: the value of the (first) entry for `k`. */
  function Get<K(==), V>(m: seq<(K, V)>, k: K): (r: Option<V>)
    ensures r.None? <==> k !in KeySet(m)
  {
    if m == [] then None
    else if m[0].0 == k then Some(m[0].1)
    else Get(m[1..], k)
  }

  /** `m.set(k, v)` / `d[k] = v`. */
  function Put<K(==,!new), V>(m: seq<(K, V)>, k: K, v: V): (r: seq<(K, V)>)
    ensures KeySet(r) == KeySet(m) + {k}
    ensures Get(r, k) == Some(v)
    ensures forall k' :: k' != k ==> Get(r, k') == Get(m, k')
    ensures k in KeySet(m) ==> |r| == |m|
    ensures k !in KeySet(m) ==> r == m + [(k, v)]
  {
    if m == [] then [(k, v)]
    else if m[0].0 == k then [(k, v)] + m[1..]
    else [m[0]] + Put(m[1..], k, v)
  }

  /** Writing a key keeps the keys distinct and leaves the other entries where they were. */
  lemma PutKeepsOthers<K(!new), V>(m: seq<(K, V)>, k: K, v: V)
    ensures DistinctKeys(m) ==> DistinctKeys(Put(m, k, v))
    ensures forall j :: 0 <= j < |m| && m[j].0 != k ==> Put(m, k, v)[j] == m[j]
  {
    PutKeepsEntries(m, k, v);
    if DistinctKeys(m) {
      PutDistinct(m, k, v);
    }
  }

  lemma {:induction false} PutKeepsEntries<K(!new), V>(m: seq<(K, V)>, k: K, v: V)
    ensures forall j :: 0 <= j < |m| && m[j].0 != k ==> Put(m, k, v)[j] == m[j]
  {
    if m != [] && m[0].0 != k {
      PutKeepsEntries(m[1..], k, v);
      assert Put(m, k, v) == [m[0]] + Put(m[1..], k, v);
    }
  }

  /** An entry whose key the rest does not carry can go in front of distinct entries. */
  lemma DistinctCons<K, V>(x: (K, V), t: seq<(K, V)>)
    requires DistinctKeys(t) && x.0 !in KeySet(t)
    ensures DistinctKeys([x] + t)
  {
    forall i, j | 0 <= i < j < |[x] + t| ensures ([x] + t)[i].0 != ([x] + t)[j].0 {
      if i > 0 {
        assert ([x] + t)[i] == t[i - 1];
      }
      assert ([x] + t)[j] == t[j - 1];
    }
  }

  /** Writing a key into distinct entries keeps them distinct. */
  lemma {:induction false} PutDistinct<K(!new), V>(m: seq<(K, V)>, k: K, v: V)
    requires DistinctKeys(m)
    ensures DistinctKeys(Put(m, k, v))
  {
    if m != [] {
      DistinctHead(m);
      assert DistinctKeys(m[1..]) by {
        forall i, j | 0 <= i < j < |m[1..]| ensures m[1..][i].0 != m[1..][j].0 {
          assert m[1..][i] == m[i + 1] && m[1..][j] == m[j + 1];
        }
      }
      if m[0].0 == k {
        DistinctCons((k, v), m[1..]);
      } else {
        PutDistinct(m[1..], k, v);
        DistinctCons(m[0], Put(m[1..], k, v));
      }
    }
  }

  /** `d.discard(k)` / `m.delete(k)`: every entry for `k` removed, the others kept in order. */
  function Remove<K(==,!new), V>(m: seq<(K, V)>, k: K): (r: seq<(K, V)>)
    ensures KeySet(r) == KeySet(m) - {k}
    ensures |r| <= |m|
    ensures DistinctKeys(m) ==> DistinctKeys(r)
    ensures DistinctKeys(m) ==> forall k' :: k' != k ==> Get(r, k') == Get(m, k')
  {
    if m == [] then []
    else if m[0].0 == k then Remove(m[1..], k)
    else
      var t := Remove(m[1..], k);
      DistinctHead(m);
      [m[0]] + t
  }

  lemma {:induction false} KeySetAppend<K, V>(a: seq<(K, V)>, b: seq<(K, V)>)
    ensures KeySet(a + b) == KeySet(a) + KeySet(b)
  {
    if a != [] {
      KeySetAppend(a[1..], b);
      assert (a + b)[1..] == a[1..] + b;
    } else {
      assert a + b == b;
    }
  }

  /** `m.update(es)` / writing the entries of `es` into `m` one after the other. */
  function PutAll<K(==,!new), V>(m: seq<(K, V)>, es: seq<(K, V)>): (r: seq<(K, V)>)
    ensures KeySet(r) == KeySet(m) + KeySet(es)
    ensures DistinctKeys(m) ==> DistinctKeys(r)
  {
    if es == [] then m
    else
      var init, last := es[..|es| - 1], es[|es| - 1];
      KeySetAppend(init, [last]);
      assert init + [last] == es;
      PutKeepsOthers(PutAll(m, init), last.0, last.1);
      Put(PutAll(m, init), last.0, last.1)
  }

  /** Looking up in a concatenation finds the entry in the first part when there is one. */
  lemma {:induction false} GetAppend<K, V>(a: seq<(K, V)>, b: seq<(K, V)>, k: K)
    ensures Get(a + b, k) == if k in KeySet(a) then Get(a, k) else Get(b, k)
  {
    if a == [] {
      assert a + b == b;
    } else {
      assert (a + b)[1..] == a[1..] + b;
      GetAppend(a[1..], b, k);
    }
  }

  /**
   * After `m.update(es)` with distinct keys in `es`, a key of `es` reads its value from `es`
   * and every other key reads what it read in `m`.
   */
  lemma {:induction false} GetPutAll<K(!new), V>(m: seq<(K, V)>, es: seq<(K, V)>, k: K)
    requires DistinctKeys(es)
    ensures Get(PutAll(m, es), k) == if k in KeySet(es) then Get(es, k) else Get(m, k)
  {
    if es != [] {
      var init, last := es[..|es| - 1], es[|es| - 1];
      assert init + [last] == es;
      assert DistinctKeys(init);
      KeySetAppend(init, [last]);
      GetPutAll(m, init, k);
      GetAppend(init, [last], k);
      if k == last.0 {
        assert forall i :: 0 <= i < |init| ==> init[i].0 != last.0;
        NotInKeySet(init, last.0);
      }
    }
  }

  /** `new Map(entries)`: the entries written one after the other into an empty map. */
  function FromEntries<K(==,!new), V>(es: seq<(K, V)>): (r: seq<(K, V)>)
    ensures DistinctKeys(r)
    ensures KeySet(r) == KeySet(es)
  {
    if es == [] then []
    else
      var init, last := es[..|es| - 1], es[|es| - 1];
      KeySetAppend(init, [last]);
      assert init + [last] == es;
      PutKeepsOthers(FromEntries(init), last.0, last.1);
      Put(FromEntries(init), last.0, last.1)
  }

  /** Building a map from entries is updating the empty map with them. */
  lemma {:induction false} FromEntriesIsPutAll<K(!new), V>(es: seq<(K, V)>)
    ensures FromEntries(es) == PutAll([], es)
  {
    if es != [] {
      FromEntriesIsPutAll(es[..|es| - 1]);
    }
  }

  /** On entries whose keys are already distinct, `new Map(entries)` keeps them as they are. */
  lemma {:induction false} FromDistinctEntries<K(!new), V>(es: seq<(K, V)>)
    requires DistinctKeys(es)
    ensures FromEntries(es) == es
  {
    if es != [] {
      var init, last := es[..|es| - 1], es[|es| - 1];
      assert DistinctKeys(init);
      FromDistinctEntries(init);
      assert forall i :: 0 <= i < |init| ==> init[i].0 != last.0;
      NotInKeySet(init, last.0);
      assert FromEntries(es) == Put(FromEntries(init), last.0, last.1);
      assert Put(init, last.0, last.1) == init + [(last.0, last.1)];
      assert init + [last] == es;
    }
  }

  /** `m.get(k) || 0` on a map of numbers: a missing key reads as 0. */
  function GetOrZero<K(==)>(m: seq<(K, int)>, k: K): (n: int)
    ensures k !in KeySet(m) ==> n == 0
  {
    Get(m, k).GetOr(0)
  }

  /** With distinct keys, looking up the key of an entry finds that entry's value. */
  lemma {:induction false} GetDistinct<K, V>(m: seq<(K, V)>, i: nat)
    requires DistinctKeys(m) && i < |m|
    ensures Get(m, m[i].0) == Some(m[i].1)
  {
    if i > 0 {
      assert m[0].0 != m[i].0;
      assert DistinctKeys(m[1..]);
      GetDistinct(m[1..], i - 1);
    }
  }
}
