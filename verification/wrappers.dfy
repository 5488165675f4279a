/** The two shapes a JavaScript value takes in this model when it may be missing or when
    computing it may throw. */
module Wrappers {

  /** `undefined` (or `null`) versus a present value. */
  datatype Option<+T> = None | Some(value: T)

  /** A promise that settles: resolved with `value`, or rejected with `error`. */
  datatype Result<+R, +E> = Success(value: R) | Failure(error: E)
}
