/** Optional values and results that may fail, as Go's `error` returns are modelled here. */
module Wrappers {

  /** `None` stands for a nil error or an absent pointer. */
  datatype Option<+T> = None | Some(value: T)

  /** The value of a call that returns `(T, error)`. */
  datatype Result<+T, +E> = Success(value: T) | Failure(error: E)
}
