/** An optional value: a JavaScript `undefined`/`null`, or a present value;
    and the outcome of a call that may throw. */
module Options {
  datatype Option<+T> = None | Some(value: T) {
    /** `x ?? default`. */
    function GetOr(default: T): T {
      match this
      case Some(v) => v
      case None => default
    }
  }

  /** A call that returns a value or throws an `Error` with a message. */
  datatype Result<+T> = Ok(value: T) | Err(message: string)
}
