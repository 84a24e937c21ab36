/** Optional values and error-or-value results, the model's stand-ins for
    `undefined`/`null` and for thrown exceptions. */
module Wrappers {

  datatype Option<+T> = None | Some(value: T) {
    /** `x ?? dflt`: the value if present, or the default. */
    function GetOr(dflt: T): T {
      match this
      case Some(v) => v
      case None => dflt
    }
  }

  datatype Result<+R, +E> = Success(value: R) | Failure(error: E)
}
