/** Small failure-carrying datatypes shared by the model, and Go's `error`
    value, which is either nil or carries a message. */
module Wrappers {

  /** A value that may be absent; a channel that has nothing to receive yet
      is read as `None`. */
  datatype Option<+T> = None | Some(value: T)

  /** The result of an operation that either produces a value or stops with
      an error, as Go's `(T, error)` pairs do. */
  datatype Result<+T, +E> = Success(value: T) | Failure(error: E)

  /** The result of evaluating a Go expression that may `panic`: it either
      returns a value or aborts with the panic message. */
  datatype Panicking<+T> = Returned(value: T) | Panicked(message: string)

  /** Go's `error` interface value: `nil`, or an error carrying its text.
      The text is opaque to the model; only nil-ness and identity matter. */
  datatype Error = Nil | Err(text: string)
}
