/** Optional values and results, for operations that can refuse their input. */
module Wrappers {

  datatype Option<T> = None | Some(value: T)

  /** A value, or the reason there is none. */
  datatype Result<T, E> = Success(value: T) | Failure(error: E)
}
