/** Results of operations that may be absent or may fail. */
module Wrappers {

  datatype Option<+T> = None | Some(value: T) {

    function GetOr(default: T): T {
      match this
      case Some(v) => v
      case None => default
    }
  }

  /** Stands for a call that either returns or throws. */
  datatype Outcome = Pass | Fail(error: string)
}
