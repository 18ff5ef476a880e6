/** What several modules share. */
module Options {
  // Where the source returns nil, "not found" or an error.
  datatype Option<+T> = None | Some(value: T)

  // Nanoseconds on one clock that does not go back; 0 is Go's zero time.
  type Instant = int

  type Bytes = seq<bv8>

  function Lookup<K, V>(m: map<K, V>, k: K): Option<V> {
    if k in m then Some(m[k]) else None
  }

  function Max(a: int, b: int): int {
    if a < b then b else a
  }
}
