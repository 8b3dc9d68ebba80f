/** The optional value used for results that may fail. */
module Wrappers {

  datatype Option<+T> = None | Some(value: T)
}
