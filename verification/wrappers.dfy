/** The conventional Some/None datatype, used for values the source reads
    as `undefined` or `NaN` and for optional host capabilities. */
module Wrappers {

  datatype Option<+T> = None | Some(value: T) {

    /** The held value, or `default` when there is none. */
    function GetOr(default: T): T {
      match this
      case Some(v) => v
      case None => default
    }
  }
}
