/** Optional values, and the two faces of Python's dict.get. */
module Wrappers {

  /** A value that may be absent: Python's `None` versus a present value. */
  datatype Option<+T> = None | Some(value: T) {

    /** The present value, or `default` when absent (`x if x is not None else default`). */
    function GetOr(default: T): T {
      match this
      case Some(v) => v
      case None => default
    }
  }

  /** `d.get(key)`: the value stored under `key`, if any. */
  function Get<K, V>(m: map<K, V>, key: K): (r: Option<V>)
    ensures r.Some? <==> key in m
    ensures r.Some? ==> r.value == m[key]
  {
    if key in m then Some(m[key]) else None
  }

  /** `d.get(key, default)`. */
  function GetOrDefault<K, V>(m: map<K, V>, key: K, default: V): (r: V)
    ensures key in m ==> r == m[key]
    ensures key !in m ==> r == default
  {
    Get(m, key).GetOr(default)
  }
}
