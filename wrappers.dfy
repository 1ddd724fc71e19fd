/** The absent-or-present value used for Python's `None` and for attributes a part may lack. */
module Wrappers {
  datatype Option<+T> = None | Some(value: T)
}
