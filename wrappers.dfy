/** The optional value used wherever the Python code tests for a missing result. */
module Wrappers {

  datatype Option<+T> = None | Some(value: T)
}
