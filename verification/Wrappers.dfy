/** Optional values, results with errors, bytes, and the blobs of the database, shared by all modules. */
module Wrappers {

  datatype Option<T> = None | Some(value: T)

  datatype Result<T, E> = Ok(value: T) | Err(error: E)

  type Byte = x: int | 0 <= x < 256

  /** A database value such as an id or a public key. */
  type Blob = seq<int>
}
