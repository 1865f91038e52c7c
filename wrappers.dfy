/** Failure-carrying values shared by the whole model. */
module Wrappers {

  /** A field or lookup that may be absent (JavaScript `undefined`). */
  datatype Option<+T> = None | Some(value: T) {
    function GetOr(default: T): T {
      match this
      case Some(v) => v
      case None => default
    }
  }

  /** The outcome of a call that may throw: a network request, a parse, a provider call. */
  datatype Outcome<+T> = Threw | Returned(value: T)
}
