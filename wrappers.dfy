/** The optional value used throughout the model for lookups and partial operations. */
module Wrappers {

  datatype Option<+T> = None | Some(value: T)
}
