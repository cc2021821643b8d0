/** The optional value used wherever the source returns `None` on failure. */
module Wrappers {

  datatype Option<+T> = None | Some(value: T)
}
