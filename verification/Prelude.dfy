/** The helpers shared by the modules: optional values, and what a map holds under a key. */
module Prelude {
  datatype Option<+T> = None | Some(value: T)

  function Lookup<K, T>(m: map<K, T>, k: K): Option<T> {
    if k in m then Some(m[k]) else None
  }
}
