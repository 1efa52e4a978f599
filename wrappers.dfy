/** The optional-value type shared by the parsers and the registry. */
module Wrappers {
  datatype Option<T> = None | Some(value: T)
}
