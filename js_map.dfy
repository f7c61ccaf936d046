/**
  * A JavaScript `Map` with string keys, as the router's file index uses it:
  * its entries in insertion order. `set` on a present key replaces the value
  * where it stands; on a new key it appends.
  */
module JsMap {
  import opened Wrappers

  type Entries<V> = seq<(string, V)>

  predicate HasKey<V>(es: Entries<V>, k: string) {
    exists i :: 0 <= i < |es| && es[i].0 == k
  }

  /** No key occurs twice: what every `Map` guarantees. */
  predicate UniqueKeys<V>(es: Entries<V>) {
    forall i, j :: 0 <= i < j < |es| ==> es[i].0 != es[j].0
  }

  /** The keys in insertion order (`m.keys()`). */
  function Keys<V>(es: Entries<V>): (r: seq<string>)
    ensures |r| == |es|
  {
    seq(|es|, i requires 0 <= i < |es| => es[i].0)
  }

  /** The position of `k`, the first one if the entries were to repeat it. */
  function IndexOf<V>(es: Entries<V>, k: string): (r: Option<nat>)
    ensures r.None? <==> !HasKey(es, k)
    ensures r.Some? ==> r.value < |es| && es[r.value].0 == k
    ensures r.Some? ==> forall j :: 0 <= j < r.value ==> es[j].0 != k
  {
    if es == [] then None
    else if es[0].0 == k then Some(0)
    else match IndexOf(es[1..], k)
      case Some(i) => Some(i + 1)
      case None => None
  }

  /** `m.get(k)`. */
  function Get<V>(es: Entries<V>, k: string): (r: Option<V>)
    ensures r.None? <==> !HasKey(es, k)
    ensures r.Some? ==> exists i :: 0 <= i < |es| && es[i] == (k, r.value)
  {
    match IndexOf(es, k)
    case Some(i) => Some(es[i].1)
    case None => None
  }

  /** `m.set(k, v)`. */
  function Set<V>(es: Entries<V>, k: string, v: V): (r: Entries<V>)
    ensures HasKey(es, k) ==> Keys(r) == Keys(es)
    ensures !HasKey(es, k) ==> r == es + [(k, v)]
  {
    match IndexOf(es, k)
    case Some(i) => es[i := (k, v)]
    case None => es + [(k, v)]
  }

  /** `m.set(k, v)` for each pair of `pairs`, left to right. */
  function SetAll<V>(es: Entries<V>, pairs: Entries<V>): Entries<V>
    decreases |pairs|
  {
    if pairs == [] then es else SetAll(Set(es, pairs[0].0, pairs[0].1), pairs[1..])
  }

  /** In a map whose keys are unique, `get` finds the value stored beside each key. */
  lemma GetAt<V>(es: Entries<V>, i: nat)
    requires UniqueKeys(es) && i < |es|
    ensures Get(es, es[i].0) == Some(es[i].1)
  {
    var j := IndexOf(es, es[i].0).value;
    assert j == i;
  }

  /** After `set(k, v)`, `get(k)` yields `v` and every other key reads as before. */
  lemma GetSet<V>(es: Entries<V>, k: string, v: V, k': string)
    ensures Get(Set(es, k, v), k') == if k' == k then Some(v) else Get(es, k')
  {
    var r := Set(es, k, v);
    match IndexOf(es, k)
    case None =>
      assert r == es + [(k, v)] && r[|es|] == (k, v);
      if k' == k {
        assert IndexOf(r, k) == Some(|es|);
      } else if HasKey(es, k') {
        var j := IndexOf(es, k').value;
        assert r[j] == es[j];
        assert forall l :: 0 <= l < j ==> r[l] == es[l];
        assert IndexOf(r, k') == Some(j);
      } else {
        assert !HasKey(r, k');
      }
    case Some(i) =>
      assert Keys(r) == Keys(es);
      assert forall j :: 0 <= j < |r| ==> r[j].0 == Keys(r)[j] == Keys(es)[j] == es[j].0;
      if k' == k {
        assert IndexOf(r, k) == Some(i);
      } else if HasKey(es, k') {
        var j := IndexOf(es, k').value;
        assert IndexOf(r, k') == Some(j);
      }
  }

  /** `set` keeps the keys unique. */
  lemma SetUnique<V>(es: Entries<V>, k: string, v: V)
    requires UniqueKeys(es)
    ensures UniqueKeys(Set(es, k, v))
  {
    var r := Set(es, k, v);
    if HasKey(es, k) {
      assert Keys(r) == Keys(es);
      assert forall j :: 0 <= j < |r| ==> r[j].0 == Keys(r)[j] == Keys(es)[j] == es[j].0;
    }
  }

  /** `set` over several pairs keeps the keys unique. */
  lemma {:induction false} SetAllUnique<V>(es: Entries<V>, pairs: Entries<V>)
    requires UniqueKeys(es)
    ensures UniqueKeys(SetAll(es, pairs))
    decreases |pairs|
  {
    if pairs != [] {
      SetUnique(es, pairs[0].0, pairs[0].1);
      SetAllUnique(Set(es, pairs[0].0, pairs[0].1), pairs[1..]);
    }
  }

  /** Setting `a` then `b` is setting `a + b`. */
  lemma {:induction false} SetAllAppend<V>(es: Entries<V>, a: Entries<V>, b: Entries<V>)
    ensures SetAll(es, a + b) == SetAll(SetAll(es, a), b)
    decreases |a|
  {
    if a == [] {
      assert a + b == b;
    } else {
      assert (a + b)[0] == a[0] && (a + b)[1..] == a[1..] + b;
      SetAllAppend(Set(es, a[0].0, a[0].1), a[1..], b);
    }
  }

  /** Pairs whose keys are new and distinct are appended in order. */
  lemma {:induction false} SetAllFresh<V>(es: Entries<V>, pairs: Entries<V>)
    requires UniqueKeys(es + pairs)
    ensures SetAll(es, pairs) == es + pairs
    decreases |pairs|
  {
    if pairs != [] {
      var all := es + pairs;
      assert all[|es|] == pairs[0];
      assert !HasKey(es, pairs[0].0) by {
        forall i | 0 <= i < |es| ensures es[i].0 != pairs[0].0 {
          assert all[i] == es[i];
        }
      }
      var es' := Set(es, pairs[0].0, pairs[0].1);
      assert es' == es + [pairs[0]];
      assert es' + pairs[1..] == all;
      SetAllFresh(es', pairs[1..]);
    }
  }
}
