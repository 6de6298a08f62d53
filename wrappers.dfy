/** Option and Result, the two failure-carrying types the store's accessors return. */
module Wrappers {

  /** Python's `None` versus a present value. */
  datatype Option<+T> = None | Some(value: T)

  /** A raised exception versus a returned value. */
  datatype Result<+T, +E> = Success(value: T) | Failure(error: E)

  /** `d.get(k, None)` on a Python dict. */
  function Get<K, V>(m: map<K, V>, k: K): (r: Option<V>)
    ensures r.Some? <==> k in m
    ensures r.Some? ==> r.value == m[k]
  {
    if k in m then Some(m[k]) else None
  }
}
