/** An optional value shared by the other modules. */
module Wrappers {

  /** A value that may be absent, such as an HTTP header that was not sent. */
  datatype Option<+T> = None | Some(value: T)
}
