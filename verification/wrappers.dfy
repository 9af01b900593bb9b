/** A value that may be missing, shared by the components. */
module Wrappers {

  datatype Option<+T> = None | Some(value: T)
}
