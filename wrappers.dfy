/** Optional values (Java references that may be null) and results (Java methods that may throw). */
module Wrappers {
  datatype Option<T> = None | Some(value: T)

  datatype Result<T, E> = Ok(value: T) | Err(error: E)
}
