/** The optional values and the raised-or-returned outcomes shared by every module.
    Every error the modelled backend raises is a `ValueError` with a message, so the
    failure side of `Result` carries exactly that. */
module Wrappers {

  datatype Option<+T> = None | Some(value: T) {

    /** The value, or `default` when there is none. */
    function GetOr(default: T): T {
      match this
      case Some(v) => v
      case None => default
    }
  }

  /** A call that either returns `value` or raises `ValueError(message)`. */
  datatype Result<+T> = Ok(value: T) | ValueError(message: string) {

    /** The returned value, or `default` when the call raised. */
    function GetOr(default: T): T {
      match this
      case Ok(v) => v
      case ValueError(_) => default
    }

    /** The same outcome with the returned value dropped (a call that returns `None` in Python). */
    function Outcome(): Result<()> {
      match this
      case Ok(_) => Ok(())
      case ValueError(m) => ValueError(m)
    }
  }
}
