/**
 * PHP's ordered arrays with string keys, as a sequence of entries. Writing
 * `$a[$k] = $v` replaces the entry in place when `$k` is present and appends
 * it otherwise, so keys keep the order in which they were first written.
 */
module Assoc {
  import opened Wrappers

  function Keys<V>(es: seq<(string, V)>): (ks: seq<string>)
    ensures |ks| == |es|
    ensures forall i :: 0 <= i < |es| ==> ks[i] == es[i].0
  {
    if es == [] then [] else [es[0].0] + Keys(es[1..])
  }

  predicate DistinctKeys<V>(es: seq<(string, V)>)
  {
    forall i, j :: 0 <= i < j < |es| ==> es[i].0 != es[j].0
  }

  /** Position of the first entry with key `k`. */
  function IndexOf<V>(es: seq<(string, V)>, k: string, from: nat): (r: Option<nat>)
    requires from <= |es|
    ensures r.Some? ==> from <= r.value < |es| && es[r.value].0 == k
    ensures r.Some? ==> forall j :: from <= j < r.value ==> es[j].0 != k
    ensures r.None? ==> forall j :: from <= j < |es| ==> es[j].0 != k
    decreases |es| - from
  {
    if from == |es| then None
    else if es[from].0 == k then Some(from)
    else IndexOf(es, k, from + 1)
  }

  /** `$a[$k] ?? null`: the value stored under `k`, if any. */
  function Lookup<V>(es: seq<(string, V)>, k: string): (r: Option<V>)
    ensures r.None? <==> forall j :: 0 <= j < |es| ==> es[j].0 != k
  {
    match IndexOf(es, k, 0)
    case None => None
    case Some(i) => Some(es[i].1)
  }

  /** With distinct keys, the entry at position `i` is what its key looks up. */
  lemma LookupAt<V>(es: seq<(string, V)>, i: nat)
    requires DistinctKeys(es) && i < |es|
    ensures Lookup(es, es[i].0) == Some(es[i].1)
  {
    var r := IndexOf(es, es[i].0, 0);
    assert r.Some?;
  }

  /** `$a[$k] = $v`: the entry for `k` is replaced where it stands, or appended. */
  function Put<V>(es: seq<(string, V)>, k: string, v: V): seq<(string, V)>
  {
    match IndexOf(es, k, 0)
    case None => es + [(k, v)]
    case Some(i) => es[i := (k, v)]
  }

  /**
   * After `$a[$k] = $v`, `k` looks up `v`, every other key looks up what it
   * did before, and a new key comes last.
   */
  lemma PutSpec<V>(es: seq<(string, V)>, k: string, v: V)
    ensures Lookup(Put(es, k, v), k) == Some(v)
    ensures forall k' :: k' != k ==> Lookup(Put(es, k, v), k') == Lookup(es, k')
    ensures Keys(Put(es, k, v)) == if Lookup(es, k).Some? then Keys(es) else Keys(es) + [k]
    ensures DistinctKeys(es) ==> DistinctKeys(Put(es, k, v))
    ensures Lookup(es, k).None? ==> Put(es, k, v) == es + [(k, v)]
  {
    var r := Put(es, k, v);
    forall k' | k' != k
      ensures Lookup(r, k') == Lookup(es, k')
    {
      PutOther(es, k, v, k');
    }
    match IndexOf(es, k, 0)
    case None =>
      assert r[|es|].0 == k;
      assert IndexOf(r, k, 0).Some?;
      assert Keys(r) == Keys(es) + [k];
    case Some(i) =>
      assert r[i].0 == k;
      assert IndexOf(r, k, 0).Some?;
      assert Keys(r) == Keys(es);
  }

  /** `$a[$k] = $v` leaves what another key looks up. */
  lemma PutOther<V>(es: seq<(string, V)>, k: string, v: V, k': string)
    requires k' != k
    ensures Lookup(Put(es, k, v), k') == Lookup(es, k')
  {
    SameIndex(es, Put(es, k, v), k');
  }

  /** `$a[$k] = $v` for a key not yet present appends the entry. */
  lemma PutNew<V>(es: seq<(string, V)>, k: string, v: V)
    requires Lookup(es, k).None?
    ensures Put(es, k, v) == es + [(k, v)]
  {
    PutSpec(es, k, v);
  }

  /** What one key looks up after `$a[$k] = $v`. */
  lemma PutLookup<V>(es: seq<(string, V)>, k: string, v: V, k': string)
    ensures Lookup(Put(es, k, v), k') == if k' == k then Some(v) else Lookup(es, k')
  {
    PutSpec(es, k, v);
  }

  /** `$a[$k] = $v` keeps the order of the keys and adds a new key last. */
  lemma PutKeys<V>(es: seq<(string, V)>, k: string, v: V)
    ensures Keys(Put(es, k, v)) == if Lookup(es, k).Some? then Keys(es) else Keys(es) + [k]
  {
    PutSpec(es, k, v);
  }

  /** `$a[$k] = $v` keeps the keys distinct. */
  lemma PutDistinct<V>(es: seq<(string, V)>, k: string, v: V)
    requires DistinctKeys(es)
    ensures DistinctKeys(Put(es, k, v))
  {
    match IndexOf(es, k, 0)
    case None =>
    case Some(i) =>
      assert forall j :: 0 <= j < |es| ==> Put(es, k, v)[j].0 == es[j].0;
  }

  /** A key is found in a non-empty list when it is found before the last entry or is the last entry's key. */
  lemma LookupLast<V>(es: seq<(string, V)>, k: string)
    requires es != []
    ensures Lookup(es, k).Some? <==> Lookup(es[..|es| - 1], k).Some? || k == es[|es| - 1].0
  {
    var n := |es| - 1;
    if Lookup(es[..n], k).Some? {
      var j :| 0 <= j < n && es[..n][j].0 == k;
      assert es[j].0 == k;
    }
  }

  /** Writing the same key twice leaves what the second write alone would. */
  lemma PutTwice<V>(es: seq<(string, V)>, k: string, v1: V, v2: V)
    ensures Put(Put(es, k, v1), k, v2) == Put(es, k, v2)
  {
    var r := Put(es, k, v1);
    match IndexOf(es, k, 0)
    case None =>
      assert r[|es|].0 == k;
      assert IndexOf(r, k, 0) == Some(|es|);
    case Some(i) =>
      assert r[i].0 == k;
      assert IndexOf(r, k, 0) == Some(i);
  }

  /** Two entry lists whose keys agree where `k` is concerned find `k` at the same place. */
  lemma SameIndex<V>(es: seq<(string, V)>, r: seq<(string, V)>, k: string)
    requires |es| <= |r|
    requires forall j :: 0 <= j < |es| ==> (es[j].0 == k) == (r[j].0 == k)
    requires forall j :: 0 <= j < |es| && es[j].0 == k ==> r[j] == es[j]
    requires forall j :: |es| <= j < |r| ==> r[j].0 != k
    ensures Lookup(r, k) == Lookup(es, k)
  {
    var a, b := IndexOf(es, k, 0), IndexOf(r, k, 0);
    if a.Some? {
      assert b.Some? && b.value <= a.value;
      assert b == a;
    } else {
      assert b.None?;
    }
  }

  /** A key is looked up exactly when it is among the keys. */
  lemma KeysLookup<V>(es: seq<(string, V)>, k: string)
    ensures k in Keys(es) <==> Lookup(es, k).Some?
  {
    if k in Keys(es) {
      var i :| 0 <= i < |es| && Keys(es)[i] == k;
      assert es[i].0 == k;
    }
  }
}
