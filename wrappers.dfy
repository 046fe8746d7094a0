/** The optional value used for nullable device handles and failed lookups. */
module Wrappers {
  datatype Option<+T> = None | Some(value: T)
}
