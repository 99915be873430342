/** Shared small datatypes: optional values and the outcomes of calls into the hosted store. */
module Wrappers {

  datatype Option<T> = None | Some(value: T) {
    /** The value, or `default` when there is none (JavaScript's `x || default` on nullable fields). */
    function GetOr(default: T): T {
      match this
      case Some(v) => v
      case None => default
    }
  }

  /** Outcome of an update or delete request to the store. */
  datatype WriteOutcome = Written | WriteFailed

  /** Outcome of an insert request: the id the store gave the new row, or a failure. */
  datatype InsertOutcome = Inserted(id: string) | InsertFailed

  /** A toast notification shown to the user. */
  datatype Toast = Success(text: string) | Error(text: string)

  /** What an event handler leaves behind: the new page state, the toast it shows, and whether it called `logActivity`. */
  datatype Step<S> = Step(state: S, toast: Option<Toast>, logsActivity: bool)
}
