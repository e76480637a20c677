/** Optional values and results with an error, used by the backend and the panel. */
module Wrappers {

  /** A value that may be missing: JSON `undefined`/`null`, Python `None`. */
  datatype Option<+T> = None | Some(value: T)

  /** The outcome of an endpoint: a response body, or an HTTP error. */
  datatype Result<+R, +E> = Success(value: R) | Failure(error: E)
}
