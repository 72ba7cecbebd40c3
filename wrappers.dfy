/** The optional value used for results that may be missing or may fail to parse. */
module Wrappers {
  datatype Option<+T> = None | Some(value: T)
}
