/** The optional value used for Python's `None` results and for raised errors. */
module Wrappers {

  datatype Option<+T> = None | Some(value: T)
}
