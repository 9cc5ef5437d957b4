/** A value that may be absent: an unset environment variable, a raised call. */
module Wrappers {

  datatype Option<+T> = None | Some(value: T)
}
