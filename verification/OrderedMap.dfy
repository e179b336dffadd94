/** A JavaScript Map: its entries, and its keys in the order in which they were first set. */
module OrderedMap {

  ghost predicate Distinct<K>(s: seq<K>) {
    forall i, j | 0 <= i < j < |s| :: s[i] != s[j]
  }

  datatype OMap<!K(==), +V> = OMap(keys: seq<K>, entries: map<K, V>)
  {
    ghost predicate Valid() {
      && (forall k | k in keys :: k in entries)
      && (forall k | k in entries :: k in keys)
      && Distinct(keys)
    }

    predicate Has(k: K) {
      k in entries
    }

    predicate IsEmpty() {
      keys == []
    }
  }

  function Empty<K(==), V>(): (m: OMap<K, V>)
    ensures m.Valid() && m.entries == map[]
  {
    OMap([], map[])
  }

  function Set<K(==), V>(m: OMap<K, V>, k: K, v: V): (r: OMap<K, V>)
    ensures r.entries == m.entries[k := v]
    ensures m.Valid() ==> r.Valid()
  {
    OMap(if k in m.entries then m.keys else m.keys + [k], m.entries[k := v])
  }

  function Without<K(==)>(s: seq<K>, k: K): (r: seq<K>)
    ensures forall x | x in r :: x in s && x != k
    ensures forall x | x in s && x != k :: x in r
    ensures Distinct(s) ==> Distinct(r)
  {
    if s == [] then [] else
      var rest := Without(s[1..], k);
      assert s == [s[0]] + s[1..];
      assert Distinct(s) ==> Distinct(s[1..]) && s[0] !in s[1..];
      if s[0] == k then rest else [s[0]] + rest
  }

  function Delete<K(==), V>(m: OMap<K, V>, k: K): (r: OMap<K, V>)
    ensures r.entries == m.entries - {k}
    ensures m.Valid() ==> r.Valid()
  {
    OMap(Without(m.keys, k), m.entries - {k})
  }

  function ValuesOf<K(==), V>(keys: seq<K>, entries: map<K, V>): (vs: seq<V>)
    requires forall k | k in keys :: k in entries
    ensures |vs| == |keys|
    ensures forall i | 0 <= i < |keys| :: vs[i] == entries[keys[i]]
  {
    seq(|keys|, i requires 0 <= i < |keys| => entries[keys[i]])
  }

  /** The values in key order: Array.from(m.values()). */
  function Values<K(==), V>(m: OMap<K, V>): (vs: seq<V>)
    requires m.Valid()
    ensures |vs| == |m.keys|
    ensures forall i | 0 <= i < |vs| :: vs[i] == m.entries[m.keys[i]]
  {
    ValuesOf(m.keys, m.entries)
  }

  lemma {:induction false} DistinctKeys<K>(s: seq<K>, t: set<K>)
    requires Distinct(s)
    requires forall x | x in s :: x in t
    requires forall x | x in t :: x in s
    ensures |s| == |t|
  {
    if s != [] {
      assert s == [s[0]] + s[1..];
      DistinctKeys(s[1..], t - {s[0]});
    }
  }

  lemma SizeOf<K, V>(m: OMap<K, V>)
    requires m.Valid()
    ensures |m.keys| == |m.entries|
    ensures m.IsEmpty() <==> m.entries == map[]
  {
    DistinctKeys(m.keys, m.entries.Keys);
    if m.keys == [] {
      assert forall k | k in m.entries :: k in m.keys;
    } else {
      assert m.keys[0] in m.entries;
    }
  }

  lemma {:induction false} WithoutSize<K>(s: seq<K>, k: K)
    requires Distinct(s) && k in s
    ensures |Without(s, k)| == |s| - 1
  {
    assert s == [s[0]] + s[1..];
    if s[0] == k {
      WithoutAbsent(s[1..], k);
    } else {
      WithoutSize(s[1..], k);
    }
  }

  lemma {:induction false} WithoutAbsent<K>(s: seq<K>, k: K)
    requires k !in s
    ensures Without(s, k) == s
  {
    if s != [] {
      assert s == [s[0]] + s[1..];
      WithoutAbsent(s[1..], k);
    }
  }
}
