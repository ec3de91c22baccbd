/** Optional values and results, as the daemon's functions return them. */
module Wrappers {

  datatype Option<+T> = None | Some(value: T)

  datatype Result<+T, +E> = Ok(value: T) | Err(error: E)

  function UnwrapOr<T>(a: Option<T>, default: T): T {
    match a case Some(x) => x case None => default
  }
}
