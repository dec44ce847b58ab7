/** Optional values, for the bounds a Cast leaves `undefined` until its first
    numeric observation. */
module Wrappers {
  datatype Option<+T> = None | Some(value: T) {
    /** The value, or the given default when there is none (JavaScript's
        `x || 0` on a bound that is either undefined or a number). */
    function GetOr(default: T): T {
      match this
      case Some(v) => v
      case None => default
    }
  }
}

/** A JavaScript plain object used as a dictionary: a finite map together with
    the order in which its keys were first inserted. That is the order
    `for … in`, `Object.keys` and `Object.values` visit keys that are not
    integer-like; JavaScript visits integer-like keys first, in ascending
    order, which this model does not reproduce. */
module OrderedMaps {
  import opened Sums

  datatype OMap<K(==), V> = OMap(keys: seq<K>, m: map<K, V>) {
    /** Every key is listed exactly once. */
    ghost predicate Valid() {
      && Distinct(keys)
      && m.Keys == set k | k in keys
    }

    function Get(k: K, default: V): V {
      if k in m then m[k] else default
    }
  }

  /** The object `{}`. */
  function Empty<K(==), V>(): (o: OMap<K, V>)
    ensures o.Valid()
    ensures |o.keys| == 0 && o.m == map[]
  {
    OMap([], map[])
  }

  /** `o[k] = v`: an existing key keeps its place, a new key goes last. */
  function Put<K(==), V>(o: OMap<K, V>, k: K, v: V): (r: OMap<K, V>)
    ensures o.Valid() ==> r.Valid()
    ensures r.m == o.m[k := v]
    ensures k in o.m ==> r.keys == o.keys
    ensures k !in o.m ==> r.keys == o.keys + [k]
  {
    if k in o.m then OMap(o.keys, o.m[k := v])
    else
      OMap(o.keys + [k], o.m[k := v])
  }
}
