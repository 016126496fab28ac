/** The nullable cell of a table column. */
module Wrappers {

  datatype Option<+T> = None | Some(value: T)
}
