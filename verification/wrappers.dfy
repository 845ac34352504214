/** Failure-compatible wrappers shared by the lexer and the parser. */
module Wrappers {

  /** An optional value; the source returns `None` where this returns `None`. */
  datatype Option<+T> = None | Some(value: T)

  /** The outcome of an operation that may raise a syntax error. */
  datatype Result<+T, +E> = Success(value: T) | Failure(error: E) {

    predicate IsFailure() {
      Failure?
    }

    function PropagateFailure<U>(): Result<U, E>
      requires Failure?
    {
      Failure(error)
    }

    function Extract(): T
      requires Success?
    {
      value
    }
  }
}
