/**
 The failure tags raised by the property and content-binding operations, an
 Option for Java's nullable references, and a Result that carries either the
 outcome of an operation or the failure it raised. Exception message texts are
 not modelled: each exception class and cause becomes one tag.
 */
module Outcomes {

  datatype Error =
    | CannotSetBound          // IllegalStateException: set() on a value-bound property
    | ConflictBidirectional   // IllegalStateException: bidirectional content binding on a content-bound property
    | ConflictUnidirectional  // IllegalStateException: content binding on a bidirectionally bound property
    | Unsupported             // UnsupportedOperationException
    | NullArgument            // NullPointerException for a null argument
    | IllegalArgument         // IllegalArgumentException: the argument is the property's own set

  /** A nullable reference: `None` is Java's null. */
  datatype Option<+T> = None | Some(value: T)

  /** The new state of an operation, or the exception it threw (which leaves the state as it was). */
  datatype Result<+T> = Ok(value: T) | Err(error: Error)
}
