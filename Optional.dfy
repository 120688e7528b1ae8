/** Java's nullable references and map lookups that may miss. */
module Optional {

  datatype Option<T> = None | Some(value: T)

  /** `m.get(k)`: the value under `k`, or None (Java's null) when absent. */
  function Get<K, V>(m: map<K, V>, k: K): (r: Option<V>)
    ensures r.Some? <==> k in m
    ensures r.Some? ==> r.value == m[k]
  {
    if k in m then Some(m[k]) else None
  }
}
