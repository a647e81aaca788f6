/** Optional values and the results of operations that Python would end with an exception. */
module Outcomes {
  datatype Option<T> = None | Some(value: T)

  datatype Result<T, E> = Success(value: T) | Failure(error: E)
}
