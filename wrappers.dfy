/** The optional value used for `find` results and the optional document summary. */
module Wrappers {
  datatype Option<+T> = None | Some(value: T)
}
