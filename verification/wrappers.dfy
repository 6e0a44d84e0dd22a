/** The optional-value datatype used throughout the model: `None` stands for
    JavaScript's `null`/`undefined`, for `NaN` out of `parseInt`, and for a
    rejected promise of an external request. */
module Wrappers {

  datatype Option<+T> = None | Some(value: T) {

    /** Returns the value in Some, or `default` if None (JavaScript's `x ?? d`). */
    function GetOr(default: T): T {
      match this
      case Some(v) => v
      case None => default
    }
  }
}
