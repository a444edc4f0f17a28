/** Types and functions that several parts of the model share. */
module Basics {
  import opened Wrappers

  /** Milliseconds on some clock. */
  type Time = int

  type byte = b: int | 0 <= b < 256

  function Max(a: int, b: int): int { if a < b then b else a }

  /** JavaScript's `map.get(key)`. */
  function Lookup<K, V>(m: map<K, V>, key: K): Option<V> {
    if key in m then Some(m[key]) else None
  }
}
