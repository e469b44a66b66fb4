/** Optional values, results, and the exceptions of the engine as values.
    Only the kind of an exception is modelled, never its message text. */
module Outcomes {

  datatype Option<+T> = None | Some(value: T)

  /** The exceptions the state-machine engine can raise. */
  datatype Error =
    | ArgumentNull     // ArgumentNullException: a required argument was null
    | ArgumentError    // ArgumentException: unrelated types, or a key that already exists
    | KeyNotFound      // KeyNotFoundException: a missing key in GetOrThrow mode
    | AlreadyDefined   // InvalidOperationException: a configuration slot set a second time
    | EmptySequence    // InvalidOperationException: Min() over an empty sequence
    | NoTransition     // InvalidOperationException: "No transitions defined"
    | Ambiguous        // InvalidOperationException: "Ambiguous transitions defined"

  /** The value of an operation that returns something or throws. */
  datatype Result<+T> = Ok(value: T) | Err(error: Error)

  /** The completion of an operation that returns nothing or throws. */
  datatype Outcome = Pass | Fail(error: Error)
}
