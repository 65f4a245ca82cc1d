/**
 * A Python `dict`: a finite map that also remembers the order in which its
 * keys were first inserted (iteration follows that order).
 */
module Dicts {

  datatype Dict<K, V> = Dict(keys: seq<K>, values: map<K, V>)

  predicate Distinct<T(==)>(s: seq<T>) {
    forall i, j :: 0 <= i < j < |s| ==> s[i] != s[j]
  }

  /** The insertion order lists every key exactly once. */
  predicate Valid<K(==), V>(d: Dict<K, V>) {
    Distinct(d.keys) &&
    (forall k :: k in d.values ==> k in d.keys) &&
    (forall k :: k in d.keys ==> k in d.values)
  }

  function Empty<K(==), V>(): (d: Dict<K, V>)
    ensures Valid(d) && d.keys == [] && d.values == map[]
  {
    Dict([], map[])
  }

  /** `d[k] = v`: a new key goes to the end of the order, an existing one keeps its place. */
  function Put<K(==), V>(d: Dict<K, V>, k: K, v: V): (r: Dict<K, V>)
    requires Valid(d)
    ensures Valid(r)
    ensures r.values == d.values[k := v]
    ensures k in d.values ==> r.keys == d.keys
    ensures k !in d.values ==> r.keys == d.keys + [k]
  {
    if k in d.values then Dict(d.keys, d.values[k := v])
    else Dict(d.keys + [k], d.values[k := v])
  }
}
