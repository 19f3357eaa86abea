/** JavaScript's null and undefined, where the system distinguishes a value from its absence. */
module Nullable {

  datatype Option<+T> = None | Some(value: T) {

    /** `x ?? d` */
    function GetOr(default: T): T {
      match this
      case Some(v) => v
      case None => default
    }
  }
}
