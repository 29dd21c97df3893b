/** The optional value used wherever a step may find nothing. */
module Wrappers {
  datatype Option<+T> = None | Some(value: T)
}
