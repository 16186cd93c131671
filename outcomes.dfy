/** The failures the event bus raises (as std::runtime_error in the C++ code) and the
    wrappers that carry them back to the caller instead of an exception. */
module Outcomes {

  /** The error conditions raised by the core. */
  datatype Error =
    | NoManager       // "no event manager set yet": a manager-relative call on a detached participant
    | QueueNotLocked  // "queue not locked": _fetchEvent without _lockQueue
    | NotAResponse    // "is not a response event": responseId() on a plain event
    | NotImplemented  // the base init_/schedule_ hook was not overridden

  datatype Option<+T> = None | Some(value: T)

  /** A value or the error raised while computing it. */
  datatype Result<+T> = Ok(value: T) | Err(error: Error)

  /** Completion of a call that returns nothing: normal return or the error it raised. */
  datatype Outcome = Pass | Fail(error: Error)
}
