/** The usual optional value, used wherever the exporter returns a value and an error and looks
    only at whether the error is nil. */
module Wrappers {

  datatype Option<+T> = None | Some(value: T)

  /** The value, or a default where the exporter ignores the error and keeps Go's zero value. */
  function GetOr<T>(o: Option<T>, default: T): T {
    match o
    case Some(v) => v
    case None => default
  }
}
