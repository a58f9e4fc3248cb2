/** Small value types shared by the whole model. */
module Values {

  datatype Option<+T> = None | Some(value: T) {
    function GetOr(default: T): T {
      match this
      case Some(v) => v
      case None => default
    }
  }

  datatype Result<+T, +E> = Ok(value: T) | Err(error: E)

  /** A JavaScript number as `isNaN`, `isFinite`, `%` and `<` see it once the
      request body value has been coerced to a number. */
  datatype JsNumber = Finite(x: real) | NaN | Infinity(negative: bool)
}
