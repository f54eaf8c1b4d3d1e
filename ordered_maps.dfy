/** A JavaScript `Map` with string keys, which iterates its values in first-insertion order. */
module OrderedMaps {
  import opened Outcomes
  import opened Seqs

  /** The entries, and the keys in the order they were first set. */
  datatype OrderedMap<V> = OrderedMap(keys: seq<string>, entries: map<string, V>)

  /** Every key is listed exactly once. */
  ghost predicate Consistent<V>(m: OrderedMap<V>) {
    Distinct(m.keys) && forall k :: k in m.entries <==> k in m.keys
  }

  /** `new Map()`. */
  function Empty<V>(): (m: OrderedMap<V>)
    ensures Consistent(m) && m.entries == map[]
  {
    OrderedMap([], map[])
  }

  /** `m.get(k)`. */
  function Get<V>(m: OrderedMap<V>, k: string): Option<V> {
    if k in m.entries then Some(m.entries[k]) else None
  }

  /** `m.set(k, v)`: a new key goes last, an existing key keeps its place. */
  function Set<V>(m: OrderedMap<V>, k: string, v: V): (r: OrderedMap<V>)
    ensures Consistent(m) ==> Consistent(r)
    ensures Get(r, k) == Some(v)
    ensures forall j :: j != k ==> Get(r, j) == Get(m, j)
  {
    var keys := if k in m.entries then m.keys else m.keys + [k];
    OrderedMap(keys, m.entries[k := v])
  }

  /** `Array.from(m.values())`. */
  function Values<V>(m: OrderedMap<V>): (r: seq<V>)
    requires Consistent(m)
    ensures |r| == |m.keys|
  {
    seq(|m.keys|, i requires 0 <= i < |m.keys| => m.entries[m.keys[i]])
  }

  /** The listing holds exactly the stored values, each at its key's index. */
  lemma ValuesListed<V>(m: OrderedMap<V>)
    requires Consistent(m)
    ensures forall i :: 0 <= i < |m.keys| ==> m.keys[i] in m.entries && Values(m)[i] == m.entries[m.keys[i]]
    ensures forall k :: k in m.entries ==> m.entries[k] in Values(m)
  {
    forall k | k in m.entries
      ensures m.entries[k] in Values(m)
    {
      var i :| 0 <= i < |m.keys| && m.keys[i] == k;
      assert Values(m)[i] == m.entries[k];
    }
  }

  /** Setting a new key appends its value. */
  lemma ValuesOfNewKey<V>(m: OrderedMap<V>, k: string, v: V)
    requires Consistent(m) && k !in m.entries
    ensures Values(Set(m, k, v)) == Values(m) + [v]
  {
    var r := Set(m, k, v);
    assert r.keys == m.keys + [k];
    forall i | 0 <= i < |m.keys|
      ensures Values(r)[i] == Values(m)[i]
    {
      assert m.keys[i] != k;
    }
  }

  /** Setting an existing key replaces its value in place. */
  lemma ValuesOfExistingKey<V>(m: OrderedMap<V>, k: string, v: V, i: nat)
    requires Consistent(m) && i < |m.keys| && m.keys[i] == k
    ensures Values(Set(m, k, v)) == Values(m)[i := v]
  {
    var r := Set(m, k, v);
    assert r.keys == m.keys;
    forall j | 0 <= j < |m.keys| && j != i
      ensures Values(r)[j] == Values(m)[j]
    {
      assert m.keys[j] != k;
    }
  }

  /** A key of a valid map sits at some index. */
  lemma KeyIndex<V>(m: OrderedMap<V>, k: string) returns (i: nat)
    requires Consistent(m) && k in m.entries
    ensures i < |m.keys| && m.keys[i] == k
    ensures forall j :: 0 <= j < |m.keys| && j != i ==> m.keys[j] != k
  {
    i :| 0 <= i < |m.keys| && m.keys[i] == k;
  }
}
