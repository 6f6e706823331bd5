/** A value that may be missing: a nullable column, or a lookup that finds nothing. */
module Optional {
  datatype Option<+T> = None | Some(value: T)

  function Lookup<K, V>(rows: map<K, V>, key: K): Option<V> { if key in rows then Some(rows[key]) else None }
}
