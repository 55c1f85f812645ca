/** Optional values: Python's `None` and JavaScript's `undefined` become `None`. */
module Wrappers {

  datatype Option<+T> = None | Some(value: T)

  /** `d.get(key)` on a dictionary: the value, or `None` when the key is absent. */
  function Get<K, V>(m: map<K, V>, key: K): (r: Option<V>)
    ensures r.Some? <==> key in m
    ensures r.Some? ==> r.value == m[key]
  {
    if key in m then Some(m[key]) else None
  }
}
