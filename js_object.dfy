/**
 * A plain JavaScript object used as a dictionary with keys that are not
 * array indices (such as `fromAddress`, `date`, `time`). Such keys are
 * enumerated (`Object.keys`, `Object.values`) in insertion order: assigning to
 * a key that is already present changes its value in place, assigning to a
 * new key appends the key at the end. Integer-like keys, which JavaScript
 * lists first in ascending order, are not modelled.
 */
module JsObject {
  import opened Wrappers

  /** The object's keys in insertion order, and the value held under each. */
  datatype Object<K, V> = Object(keys: seq<K>, props: map<K, V>)

  /** No element occurs twice. */
  predicate Distinct<T(==)>(s: seq<T>)
  {
    forall i, j :: 0 <= i < j < |s| ==> s[i] != s[j]
  }

  /** Every key occurs once in the order, and the order lists exactly the keys that hold a value. */
  ghost predicate Valid<K, V>(o: Object<K, V>)
  {
    Distinct(o.keys) &&
    o.props.Keys == set k | k in o.keys
  }

  /** `{}` */
  function Empty<K, V>(): (o: Object<K, V>)
    ensures Valid(o) && o.keys == []
  {
    Object([], map[])
  }

  /** `o[k]`, with `None` for `undefined`. */
  function Lookup<K, V>(o: Object<K, V>, k: K): Option<V>
  {
    if k in o.props then Some(o.props[k]) else None
  }

  /** `o[k] = v`. */
  function Assign<K, V>(o: Object<K, V>, k: K, v: V): Object<K, V>
  {
    Object(if k in o.props then o.keys else o.keys + [k], o.props[k := v])
  }

  /** Assignment keeps every key unique: a present key stays where it is, a new key goes last. */
  lemma AssignKeepsValid<K, V>(o: Object<K, V>, k: K, v: V)
    requires Valid(o)
    ensures Valid(Assign(o, k, v))
    ensures Assign(o, k, v).keys == if Lookup(o, k).Some? then o.keys else o.keys + [k]
  {
    var r := Assign(o, k, v);
    assert r.props.Keys == o.props.Keys + {k};
    assert (set j | j in r.keys) == (set j | j in o.keys) + {k};
  }

  /** After `o[k] = v`, reading `k` gives `v` and every other key reads as before. */
  lemma AssignThenLookup<K, V>(o: Object<K, V>, k: K, v: V, j: K)
    ensures Lookup(Assign(o, k, v), j) == if j == k then Some(v) else Lookup(o, j)
  {
  }

  /** `Object.values(o)`: the values in key order. */
  function Values<K, V>(o: Object<K, V>): (vs: seq<V>)
    requires Valid(o)
    ensures |vs| == |o.keys|
    ensures forall i :: 0 <= i < |vs| ==> Lookup(o, o.keys[i]) == Some(vs[i])
  {
    seq(|o.keys|, i requires 0 <= i < |o.keys| => o.props[o.keys[i]])
  }

  /** `Object.values(o)[0]`, with `None` for `undefined`. */
  function FirstValue<K, V>(o: Object<K, V>): (v: Option<V>)
    requires Valid(o)
    ensures v.None? <==> o.keys == []
    ensures v.Some? ==> Lookup(o, o.keys[0]) == v
  {
    var vs := Values(o);
    if vs == [] then None else Some(vs[0])
  }
}
