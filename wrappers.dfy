/** The optional value used for "nothing was written" and "not a label". */
module Wrappers {
  datatype Option<+T> = None | Some(value: T)
}
