/**
 * A JavaScript `Map`: a finite map that remembers the order in which keys were
 * first inserted. `set` on an existing key overwrites the value in place;
 * iteration (`forEach`, `keys()`) follows `keys`.
 */
module OrderedMaps {
  import opened Wrappers

  datatype OrderedMap<K(==,!new), V> = OrderedMap(keys: seq<K>, values: map<K, V>) {

    /** Keys are listed once each, and exactly the keys of `values` are listed. */
    ghost predicate Valid() {
      && (forall i, j :: 0 <= i < j < |keys| ==> keys[i] != keys[j])
      && (forall k :: k in values <==> k in keys)
    }

    /** `Map.prototype.has`. */
    predicate Has(k: K) {
      k in values
    }

    /** `Map.prototype.get`: `undefined` becomes `None`. */
    function Get(k: K): Option<V> {
      if k in values then Some(values[k]) else None
    }

    /** `Map.prototype.set`: a new key goes last, an existing key keeps its place. */
    function Set(k: K, v: V): (r: OrderedMap<K, V>)
      requires Valid()
      ensures r.Valid()
      ensures r.Get(k) == Some(v)
      ensures forall k' :: k' != k ==> r.Get(k') == Get(k')
      ensures Has(k) ==> r.keys == keys
      ensures !Has(k) ==> r.keys == keys + [k]
    {
      if k in values then OrderedMap(keys, values[k := v])
      else OrderedMap(keys + [k], values[k := v])
    }
  }

  /** `new Map()`. */
  function Empty<K(==,!new), V>(): (r: OrderedMap<K, V>)
    ensures r.Valid() && r.keys == [] && forall k :: !r.Has(k)
  {
    OrderedMap([], map[])
  }
}
