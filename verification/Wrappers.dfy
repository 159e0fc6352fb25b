/** Optional values, fallible results and the error hierarchy of `src/apparitor/errors.py`. */
module Wrappers {

  datatype Option<+T> = None | Some(value: T)

  datatype Result<+T, +E> = Ok(value: T) | Err(error: E) {
    predicate IsFailure() {
      Err?
    }

    function PropagateFailure<U>(): Result<U, E>
      requires Err?
    {
      Err(error)
    }

    function Extract(): T
      requires Ok?
    {
      value
    }
  }

  /** The exception classes that the error table tells apart; `Unexpected` is any other exception. */
  datatype Fault = ConfigError | ClientError | Unavailable | TimedOut | Malformed | Unexpected {
    /** Subclasses of the service error, the only ones resolved through `on_error`. */
    predicate IsServiceError() {
      Unavailable? || TimedOut? || Malformed?
    }
  }

  /** How an awaited call ends. A cancellation is not an exception that an error handler sees. */
  datatype Await<+T> = Done(value: T) | Raised(fault: Fault) | Cancelled
}
