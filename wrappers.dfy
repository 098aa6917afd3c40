/** The optional value used wherever the toolkit accepts or stores Python's `None`. */
module Wrappers {
  datatype Option<+T> = None | Some(value: T)
}
