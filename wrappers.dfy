/** The optional value used for parsed fields that may be missing. */
module Wrappers {

  datatype Option<T> = None | Some(value: T)
}
