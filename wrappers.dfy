/** The optional value used for array reads that may fall outside the array. */
module Wrappers {
  datatype Option<+T> = None | Some(value: T)
}
