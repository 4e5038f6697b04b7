/** The optional value used wherever the cop may find nothing. */
module Wrappers {

  datatype Option<+T> = None | Some(value: T)
}
