/** Option type and a map lookup shared by the cache modules. */
module Wrappers {

  datatype Option<+T> = None | Some(value: T)

  /** The Option-returning lookup `HashMap::get` performs: the stored value
      when the key is present, None otherwise. */
  function Lookup<K, V>(m: map<K, V>, k: K): (r: Option<V>)
    ensures r.Some? <==> k in m
    ensures r.Some? ==> r.value == m[k]
  {
    if k in m then Some(m[k]) else None
  }
}
