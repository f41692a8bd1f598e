/** Optional values and the outcome of a call that may panic. */
module Wrappers {

  datatype Option<T> = None | Some(value: T)

  /** A Go call either returns a value or panics. */
  datatype Result<T> = Ok(value: T) | Panic(reason: string)
}
