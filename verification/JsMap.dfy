/** The JavaScript Map: entries in insertion order (ECMA-262, section 24.1). */
module JsMap {
  import opened Common

  datatype Entry<K, V> = Entry(key: K, val: V)

  type OrderedMap<K, V> = seq<Entry<K, V>>

  function Get<K(==), V>(m: OrderedMap<K, V>, k: K): Option<V> {
    if m == [] then None
    else if m[0].key == k then Some(m[0].val)
    else Get(m[1..], k)
  }

  predicate Has<K(==), V>(m: OrderedMap<K, V>, k: K) { Get(m, k).Some? }

  function Delete<K(==), V>(m: OrderedMap<K, V>, k: K): OrderedMap<K, V> {
    if m == [] then []
    else if m[0].key == k then m[1..]
    else [m[0]] + Delete(m[1..], k)
  }

  /** An existing key keeps its place, a new one goes last. */
  function Set<K(==), V>(m: OrderedMap<K, V>, k: K, v: V): OrderedMap<K, V> {
    if m == [] then [Entry(k, v)]
    else if m[0].key == k then [Entry(k, v)] + m[1..]
    else [m[0]] + Set(m[1..], k, v)
  }

  function Values<K, V>(m: OrderedMap<K, V>): (r: seq<V>)
    ensures |r| == |m| && forall i :: 0 <= i < |m| ==> r[i] == m[i].val
  {
    seq(|m|, i requires 0 <= i < |m| => m[i].val)
  }

  /** No key occurs twice: what makes the sequence a map. */
  ghost predicate Unique<K, V>(m: OrderedMap<K, V>) {
    forall i, j :: 0 <= i < j < |m| ==> m[i].key != m[j].key
  }

  /** Get finds exactly the entries of the map. */
  lemma {:induction false} GetIsEntry<K, V>(m: OrderedMap<K, V>, k: K)
    ensures Get(m, k).None? <==> forall e :: e in m ==> e.key != k
    ensures Get(m, k).Some? ==> Entry(k, Get(m, k).value) in m
    ensures Unique(m) ==> forall e :: e in m && e.key == k ==> Get(m, k) == Some(e.val)
  {
    if m != [] {
      GetIsEntry(m[1..], k);
      assert forall e :: e in m <==> e == m[0] || e in m[1..];
    }
  }

  lemma {:induction false} SetAppends<K, V>(m: OrderedMap<K, V>, k: K, v: V)
    requires Get(m, k).None?
    ensures Set(m, k, v) == m + [Entry(k, v)]
  {
    if m != [] {
      SetAppends(m[1..], k, v);
      assert m == [m[0]] + m[1..];
    }
  }

  lemma {:induction false} DeleteAbsent<K, V>(m: OrderedMap<K, V>, k: K)
    requires Get(m, k).None?
    ensures Delete(m, k) == m
  {
    if m != [] {
      DeleteAbsent(m[1..], k);
      assert m == [m[0]] + m[1..];
    }
  }

  lemma UniqueWithout<K, V>(m: OrderedMap<K, V>, i: nat)
    requires Unique(m) && i < |m|
    ensures Unique(m[..i] + m[i + 1..])
  {
  }

  lemma WithoutTail<T>(s: seq<T>, i: nat)
    requires 0 < i < |s|
    ensures s[..i] + s[i + 1..] == [s[0]] + (s[1..][..i - 1] + s[1..][i..])
  {
  }

  /** Deleting an entry takes out that entry and nothing else, keeping the order. */
  lemma {:induction false} DeleteAt<K, V>(m: OrderedMap<K, V>, i: nat)
    requires Unique(m) && i < |m|
    ensures Delete(m, m[i].key) == m[..i] + m[i + 1..]
    ensures Unique(Delete(m, m[i].key))
  {
    UniqueWithout(m, i);
    if i > 0 {
      assert m[1..][i - 1] == m[i];
      DeleteAt(m[1..], i - 1);
      WithoutTail(m, i);
    }
  }

  /** After a deletion or an assignment, every other key is what it was. */
  lemma {:induction false} GetAfter<K, V>(m: OrderedMap<K, V>, k: K, v: V, other: K)
    requires Unique(m)
    ensures Get(Delete(m, k), other) == if other == k then None else Get(m, other)
    ensures Get(Set(m, k, v), other) == if other == k then Some(v) else Get(m, other)
    ensures Unique(Delete(m, k)) && Unique(Set(m, k, v))
  {
    if m != [] {
      GetAfter(m[1..], k, v, other);
      GetIsEntry(m[1..], m[0].key);
      GetAfter(m[1..], k, v, m[0].key);
      GetIsEntry(Delete(m[1..], k), m[0].key);
      GetIsEntry(Set(m[1..], k, v), m[0].key);
      if m[0].key == k {
        GetIsEntry(m[1..], other);
      }
    }
  }
}
