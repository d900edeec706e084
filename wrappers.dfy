/** Optional values and results, standing for JavaScript's null/undefined and thrown errors. */
module Wrappers {

  /** A value that may be absent (`null` or `undefined` in the source). */
  datatype Option<+T> = None | Some(value: T) {
    /** The value, or `default` when absent (the source's `?? default`). */
    function GetOr(default: T): T {
      match this
      case Some(v) => v
      case None => default
    }
  }

  /** The result of an operation that may reject with an error message. */
  datatype Result<+T> = Ok(value: T) | Err(message: string)

  /** A JavaScript number produced by `parseInt`: an integer or NaN. */
  datatype JsNumber = NaN | Num(n: int)

  /**
   * A JavaScript number produced by `parseFloat`: NaN, a finite value (the
   * exact decimal the text denotes), or an infinity of either sign.
   */
  datatype JsFloat = FloatNaN | Finite(value: real) | Infinite(negative: bool)
}
