/** Optional values and outcomes that may fail with a message. */
module Wrappers {
  datatype Option<T> = None | Some(value: T)

  datatype Result<T> = Ok(value: T) | Failure(message: string)
}
