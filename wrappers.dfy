/** The optional value used for properties that may be absent from an options object. */
module Wrappers {

  datatype Option<+T> = None | Some(value: T)
}
