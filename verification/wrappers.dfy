/** The optional-value datatype shared by every module of the model. */
module Wrappers {

  /** A value that may be absent: stands for `undefined`/`null` results of the source. */
  datatype Option<+T> = None | Some(value: T) {

    /** Returns the value held in Some, or the given default if None */
    function GetOr(default: T): T {
      match this
      case Some(v) => v
      case None => default
    }
  }
}
