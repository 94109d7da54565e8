/**
 * Python's insertion-ordered `dict`, as a sequence of key/value pairs with
 * distinct keys. Assigning to a present key replaces its value in place;
 * assigning to a new key appends it.
 */
module Dicts {
  import opened Wrappers

  predicate DistinctKeys<K(==), V>(d: seq<(K, V)>) {
    forall i, j :: 0 <= i < j < |d| ==> d[i].0 != d[j].0
  }

  type Dict<K(==), V> = d: seq<(K, V)> | DistinctKeys(d) witness []

  function Keys<K, V>(d: seq<(K, V)>): set<K> {
    set i | 0 <= i < |d| :: d[i].0
  }

  /** `d.get(k)`: the value stored under `k`, or `None`. */
  function Lookup<K(==), V>(d: Dict<K, V>, k: K): (r: Option<V>)
    ensures r.None? <==> k !in Keys(d)
    ensures forall i :: 0 <= i < |d| && d[i].0 == k ==> r == Some(d[i].1)
  {
    if d == [] then None
    else if d[0].0 == k then Some(d[0].1)
    else
      var r := Lookup(d[1..], k);
      assert forall i :: 0 < i < |d| ==> d[i] == d[1..][i - 1];
      r
  }

  /** The keys of a pair put in front of `d`. */
  lemma KeysCons<K, V>(x: (K, V), d: seq<(K, V)>)
    ensures Keys([x] + d) == {x.0} + Keys(d)
  {
    var c := [x] + d;
    forall y | y in Keys(c) ensures y in {x.0} + Keys(d) {
      var i :| 0 <= i < |c| && c[i].0 == y;
      if i > 0 { assert d[i - 1].0 == y; }
    }
    forall y | y in Keys(d) ensures y in Keys(c) {
      var i :| 0 <= i < |d| && d[i].0 == y;
      assert c[i + 1].0 == y;
    }
    assert c[0].0 == x.0;
  }

  /** Position of the key `k` in `d`. */
  function IndexOf<K(==), V>(d: seq<(K, V)>, k: K): (i: nat)
    requires k in Keys(d)
    ensures i < |d| && d[i].0 == k
  {
    if d[0].0 == k then 0
    else
      KeysCons(d[0], d[1..]);
      assert d == [d[0]] + d[1..];
      1 + IndexOf(d[1..], k)
  }

  /** `d[k] = v`. */
  function Put<K(==, !new), V>(d: Dict<K, V>, k: K, v: V): (r: Dict<K, V>)
    ensures Keys(r) == Keys(d) + {k}
    ensures k in Keys(d) ==> |r| == |d| && forall i :: 0 <= i < |d| ==> r[i].0 == d[i].0
    ensures k !in Keys(d) ==> r == d + [(k, v)]
    ensures Lookup(r, k) == Some(v)
    ensures forall k' :: k' != k ==> Lookup(r, k') == Lookup(d, k')
  {
    if k in Keys(d) then
      var i := IndexOf(d, k);
      var r := d[i := (k, v)];
      assert forall j :: 0 <= j < |d| ==> r[j].0 == d[j].0;
      assert Keys(r) == Keys(d);
      r
    else
      var r := d + [(k, v)];
      assert Keys(r) == Keys(d) + {k} by {
        assert forall j :: 0 <= j < |d| ==> r[j] == d[j];
        assert r[|d|].0 == k;
      }
      r
  }

  /** The plain `map` with the same contents, built by assigning the pairs in order. */
  function ToMap<K(==), V>(d: seq<(K, V)>): (m: map<K, V>)
    ensures m.Keys == Keys(d)
  {
    if d == [] then map[]
    else
      var m := ToMap(d[..|d| - 1])[d[|d| - 1].0 := d[|d| - 1].1];
      assert Keys(d) == Keys(d[..|d| - 1]) + {d[|d| - 1].0} by {
        assert forall i :: 0 <= i < |d| - 1 ==> d[i] == d[..|d| - 1][i];
      }
      m
  }

  /** With distinct keys, the map holds exactly the value paired with each key. */
  lemma {:induction false} ToMapAt<K, V>(d: Dict<K, V>, i: nat)
    requires i < |d|
    ensures d[i].0 in ToMap(d) && ToMap(d)[d[i].0] == d[i].1
  {
    if i < |d| - 1 {
      var init := d[..|d| - 1];
      assert init[i] == d[i];
      ToMapAt(init, i);
    }
  }

  lemma KeysSnoc<K, V>(d: seq<(K, V)>)
    requires d != []
    ensures Keys(d) == Keys(d[..|d| - 1]) + {d[|d| - 1].0}
  {
    assert forall i :: 0 <= i < |d| - 1 ==> d[i] == d[..|d| - 1][i];
  }

  /** The dict built by assigning the pairs in order: a later pair for a key replaces its value. */
  function PutAll<K(==, !new), V>(pairs: seq<(K, V)>): Dict<K, V>
  {
    if pairs == [] then []
    else Put(PutAll(pairs[..|pairs| - 1]), pairs[|pairs| - 1].0, pairs[|pairs| - 1].1)
  }

  lemma PutAllSnoc<K(!new), V>(pairs: seq<(K, V)>, p: (K, V))
    ensures PutAll(pairs + [p]) == Put(PutAll(pairs), p.0, p.1)
  {
    assert (pairs + [p])[..|pairs|] == pairs;
  }

  /** Exactly the keys of the pairs are defined. */
  lemma {:induction false} PutAllKeys<K(!new), V>(pairs: seq<(K, V)>)
    ensures Keys(PutAll(pairs)) == Keys(pairs)
  {
    if pairs != [] {
      PutAllKeys(pairs[..|pairs| - 1]);
      KeysSnoc(pairs);
    }
  }

  /** A key holds the value of the last pair that assigns it. */
  lemma {:induction false} PutAllLast<K(!new), V>(pairs: seq<(K, V)>, i: nat)
    requires i < |pairs|
    requires forall j :: i < j < |pairs| ==> pairs[j].0 != pairs[i].0
    ensures Lookup(PutAll(pairs), pairs[i].0) == Some(pairs[i].1)
  {
    if i < |pairs| - 1 {
      var init := pairs[..|pairs| - 1];
      assert init[i] == pairs[i];
      PutAllLast(init, i);
    }
  }

  /** Pairs with distinct keys are kept as they are, in their order. */
  lemma {:induction false} PutAllDistinct<K(!new), V>(pairs: seq<(K, V)>)
    requires DistinctKeys(pairs)
    ensures PutAll(pairs) == pairs
  {
    if pairs != [] {
      var init := pairs[..|pairs| - 1];
      var last := pairs[|pairs| - 1];
      assert DistinctKeys(init) by {
        forall i, j | 0 <= i < j < |init| ensures init[i].0 != init[j].0 {
          assert init[i] == pairs[i] && init[j] == pairs[j];
        }
      }
      PutAllDistinct(init);
      PutAllKeys(init);
      assert last.0 !in Keys(init) by {
        forall i | 0 <= i < |init| ensures init[i].0 != last.0 {
          assert init[i] == pairs[i];
        }
      }
      assert init + [last] == pairs;
      PutAllSnoc(init, last);
    }
  }

  /** There are never more entries than pairs. */
  lemma {:induction false} PutAllCount<K(!new), V>(pairs: seq<(K, V)>)
    ensures |PutAll(pairs)| <= |pairs|
  {
    if pairs != [] {
      PutAllCount(pairs[..|pairs| - 1]);
    }
  }

  /** Two pairs with the same key leave fewer entries than pairs. */
  lemma {:induction false} PutAllCollision<K(!new), V>(pairs: seq<(K, V)>, i: nat, j: nat)
    requires i < j < |pairs| && pairs[i].0 == pairs[j].0
    ensures |PutAll(pairs)| < |pairs|
  {
    var init := pairs[..|pairs| - 1];
    if j == |pairs| - 1 {
      PutAllKeys(init);
      assert init[i] == pairs[i];
      PutAllCount(init);
    } else {
      assert init[i] == pairs[i] && init[j] == pairs[j];
      PutAllCollision(init, i, j);
    }
  }

  /** There is one entry per pair exactly when the pairs' keys are distinct. */
  lemma PutAllOnePerPair<K(!new), V>(pairs: seq<(K, V)>)
    ensures |PutAll(pairs)| == |pairs| <==> DistinctKeys(pairs)
  {
    if DistinctKeys(pairs) {
      PutAllDistinct(pairs);
    } else {
      var i, j :| 0 <= i < j < |pairs| && pairs[i].0 == pairs[j].0;
      PutAllCollision(pairs, i, j);
    }
  }
}
