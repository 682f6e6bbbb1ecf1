/** Option stands for a C# reference that may be null; Result for a call that
    may throw one of the argument exceptions the library raises. */
module Wrappers {

  datatype Option<+T> = None | Some(value: T) {
    /** The value, or `default` when this is None (C#'s `??`). */
    function GetOr(default: T): T {
      match this
      case Some(v) => v
      case None => default
    }
  }

  /** The exceptions thrown by the modelled members. */
  datatype Error =
    | ArgumentNull(param: string)
    | ArgumentOutOfRange(param: string)
    | NullReference

  datatype Result<+T> = Ok(value: T) | Err(error: Error)
}
