/** The optional value used wherever the modelled code works with a value that may be null or absent. */
module Wrappers {

  datatype Option<+T> = None | Some(value: T)
}
