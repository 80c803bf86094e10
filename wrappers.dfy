/** Option, used for JavaScript values that may be `undefined` and for lookups that may miss. */
module Wrappers {

  datatype Option<+T> = None | Some(value: T)

  /** Map lookup that reports a miss instead of failing. */
  function Get<K, V>(m: map<K, V>, k: K): Option<V>
  {
    if k in m then Some(m[k]) else None
  }
}
