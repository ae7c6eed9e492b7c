/** Small value wrappers shared by the model. */
module Wrappers {

  /** A value that may be absent: JavaScript's `null`/`undefined`/empty input. */
  datatype Option<+T> = None | Some(value: T) {

    /** The held value, or `default` when there is none (JavaScript's `x || default`). */
    function GetOr(default: T): T {
      match this
      case Some(v) => v
      case None => default
    }
  }
}
