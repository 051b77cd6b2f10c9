/** Optional values: Python's `None`, a pandas null (NaN), or an operation that raised. */
module Wrappers {

  datatype Option<T> = None | Some(value: T)

  /** `m.get(k, d)` on a Python dict. */
  function GetOr<K, V>(m: map<K, V>, k: K, d: V): V
  {
    if k in m then m[k] else d
  }
}
