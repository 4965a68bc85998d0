/** The optional values that stand for the runtime's null pointers. */
module Wrappers {
  datatype Option<+T> = None | Some(value: T)
}
