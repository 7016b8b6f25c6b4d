/** The option and outcome types shared by the whole model. */
module Wrappers {

  /** A value that may be absent: JavaScript `null`/`undefined`, Python `None`. */
  datatype Option<+T> = None | Some(value: T) {
    function GetOr(default: T): T {
      match this
      case Some(v) => v
      case None => default
    }
  }

  /** The outcome of a Python call that may raise: `Ok` or the name of the exception. */
  datatype Outcome = Ok | Raised(exception: string)
}
