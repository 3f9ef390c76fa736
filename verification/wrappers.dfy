/** Optional values and results with an error, used for PHP's `false`/`null`
    sentinels and for the exceptions the query classes throw. */
module Wrappers {

  datatype Option<+T> = None | Some(value: T)

  datatype Result<+T, +E> = Success(value: T) | Failure(error: E)

  datatype Outcome<+E> = Pass | Fail(error: E)
}
