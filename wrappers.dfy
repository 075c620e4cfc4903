/** The optional value used for parse results and dispatch results. */
module Wrappers {
  datatype Option<+T> = None | Some(value: T)
}
