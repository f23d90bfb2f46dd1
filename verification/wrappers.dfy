/** The nullable-pointer and result datatypes used throughout the model: `Option` stands for a
    nullable C pointer, `Result` for a computation that either yields a value or
    one of the library's failure reasons. */
module Wrappers {

  datatype Option<+T> = None | Some(value: T)

  datatype Result<+R, +E> = Ok(value: R) | Err(error: E)

  /** The entry `m[k]` as a nullable reference: `None` plays the part of NULL. */
  function Lookup<K, V>(m: map<K, V>, k: K): (r: Option<V>)
    ensures r.Some? <==> k in m
    ensures r.Some? ==> r.value == m[k]
  {
    if k in m then Some(m[k]) else None
  }
}
