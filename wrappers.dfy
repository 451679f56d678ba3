/** Small failure-carrying datatypes shared by the rest of the model. */
module Wrappers {

  /** A value that may be absent; `None` stands for a Go nil map. */
  datatype Option<+T> = None | Some(value: T) {

    /** The carried value, or `default` when absent. */
    function GetOr(default: T): T {
      match this
      case Some(v) => v
      case None => default
    }
  }

  /** What a command's validation reports: success, or the error it returned. */
  datatype Outcome = Pass | Fail(error: string)
}
