/** The optional value used wherever a JavaScript expression can produce
    NaN or `undefined`: `None` stands for "no usable number". */
module Wrappers {

  datatype Option<+T> = None | Some(value: T) {

    /** The wrapped value, or `default` when there is none. */
    function GetOr(default: T): T {
      match this
      case Some(v) => v
      case None => default
    }
  }
}
