/** The two wrappers the rest of the model uses: Ruby's `nil`
    becomes `None`, and an early `return notice(...)` becomes a `Failure`. */
module Wrappers {

  datatype Option<+T> = None | Some(value: T)

  datatype Result<+R, +E> = Success(value: R) | Failure(error: E)
}
