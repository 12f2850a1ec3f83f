/**
 * A dictionary that remembers the order in which its keys were first added,
 * as a JavaScript `Map` does.  A plain object orders its keys the same way
 * except that integer-like keys (such as "10") come first, in ascending
 * order; the objects modelled with this type either have fixed non-numeric
 * keys or are sorted before their order is seen.
 * Overwriting a key keeps its place; deleting it removes it from the order.
 */
module OrderedMaps {

  import opened Wrappers

  datatype OrderedMap<K(==,!new), V> = OrderedMap(keys: seq<K>, items: map<K, V>)

  /** No element occurs twice. */
  ghost predicate Distinct<K(!new)>(s: seq<K>) {
    forall i, j :: 0 <= i < j < |s| ==> s[i] != s[j]
  }

  /** Every key appears once in the order, and the order lists exactly the
      keys of the dictionary. */
  ghost predicate Valid<K(!new), V>(m: OrderedMap<K, V>) {
    && Distinct(m.keys)
    && (forall k :: k in m.items <==> k in m.keys)
  }

  function Empty<K(==,!new), V>(): (r: OrderedMap<K, V>)
    ensures Valid(r) && r.items == map[]
  {
    OrderedMap([], map[])
  }

  /** `m.get(k)`, with `None` for a missing key. */
  function Get<K(==,!new), V>(m: OrderedMap<K, V>, k: K): (r: Option<V>)
    ensures r.Some? <==> k in m.items
    ensures r.Some? ==> r.value == m.items[k]
  {
    if k in m.items then Some(m.items[k]) else None
  }

  /** `m.set(k, v)`: a new key goes last, an existing one keeps its place. */
  function Put<K(==,!new), V>(m: OrderedMap<K, V>, k: K, v: V): (r: OrderedMap<K, V>)
    requires Valid(m)
    ensures Valid(r)
    ensures r.items == m.items[k := v]
    ensures k in m.items ==> r.keys == m.keys
    ensures k !in m.items ==> r.keys == m.keys + [k]
  {
    if k in m.items then OrderedMap(m.keys, m.items[k := v])
    else OrderedMap(m.keys + [k], m.items[k := v])
  }

  /** The order with one key taken out. */
  function Without<K(==,!new)>(keys: seq<K>, k: K): (r: seq<K>)
    ensures forall x :: x in r <==> x in keys && x != k
    ensures |r| <= |keys|
  {
    if keys == [] then []
    else if keys[0] == k then Without(keys[1..], k)
    else [keys[0]] + Without(keys[1..], k)
  }

  lemma {:induction false} WithoutDistinct<K(!new)>(keys: seq<K>, k: K)
    requires Distinct(keys)
    ensures Distinct(Without(keys, k))
  {
    if keys != [] {
      WithoutDistinct(keys[1..], k);
      var rest := Without(keys[1..], k);
      if keys[0] == k {
        assert Without(keys, k) == rest;
      } else {
        assert Without(keys, k) == [keys[0]] + rest;
        assert keys[0] !in keys[1..];
        assert keys[0] !in rest;
        var r := [keys[0]] + rest;
        forall i, j | 0 <= i < j < |r| ensures r[i] != r[j] {
          if i == 0 {
            assert r[j] == rest[j - 1];
          } else {
            assert r[i] == rest[i - 1] && r[j] == rest[j - 1];
          }
        }
      }
    }
  }

  lemma WithoutAbsent<K(!new)>(keys: seq<K>, k: K)
    requires k !in keys
    ensures Without(keys, k) == keys
  {
  }

  /** `m.delete(k)`. */
  function Delete<K(==,!new), V>(m: OrderedMap<K, V>, k: K): (r: OrderedMap<K, V>)
    requires Valid(m)
    ensures Valid(r)
    ensures r.items == m.items - {k}
    ensures r.keys == Without(m.keys, k)
  {
    WithoutDistinct(m.keys, k);
    OrderedMap(Without(m.keys, k), m.items - {k})
  }

  /** `Array.from(m.values())`: one value per key, in key order. */
  function Values<K(==,!new), V>(m: OrderedMap<K, V>): (r: seq<V>)
    requires Valid(m)
    ensures |r| == |m.keys|
    ensures forall i :: 0 <= i < |r| ==> r[i] == m.items[m.keys[i]]
  {
    seq(|m.keys|, i requires 0 <= i < |m.keys| => m.items[m.keys[i]])
  }

  /** Building a dictionary from a list of entries, as an object literal does. */
  function FromEntries<K(==,!new), V>(entries: seq<(K, V)>): (r: OrderedMap<K, V>)
    ensures Valid(r)
    ensures forall k :: k in r.items <==> exists i :: 0 <= i < |entries| && entries[i].0 == k
  {
    if entries == [] then Empty()
    else
      var m := FromEntries(entries[..|entries| - 1]);
      var e := entries[|entries| - 1];
      assert forall i :: 0 <= i < |entries| - 1 ==> entries[..|entries| - 1][i] == entries[i];
      Put(m, e.0, e.1)
  }
}
