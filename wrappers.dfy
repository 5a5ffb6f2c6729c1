/** The two failure-carrying wrappers the model uses: an optional value and an accept/reject outcome. */
module Wrappers {

  /** A value that may be absent (`undefined`, `null`, or a NaN parse). */
  datatype Option<+T> = None | Some(value: T)

  /** A decision that either yields a value or names why it was refused. */
  datatype Result<+R, +E> = Success(value: R) | Failure(error: E)
}
