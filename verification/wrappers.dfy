/** Optional values and results with an error message: the model's stand-ins for
    JavaScript's `null`/`undefined` and for a thrown `Error`. */
module Wrappers {

  /** `None` stands for `null` or `undefined`, which the `??` operator treats alike. */
  datatype Option<+T> = None | Some(value: T) {
    /** The value of `this ?? default`. */
    function GetOr(default: T): T {
      match this
      case Some(v) => v
      case None => default
    }
  }

  /** The outcome of a call that either returns a value or throws an `Error` with a message. */
  datatype Result<+T> = Ok(value: T) | Err(message: string)
}
