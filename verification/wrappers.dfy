/** The optional-value datatype used wherever the C code may hold NULL. */
module Wrappers {

  datatype Option<+T> = None | Some(value: T)
}
