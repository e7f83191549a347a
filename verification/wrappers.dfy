/** The optional-value wrapper used by the schema and by the `Option<T>` encoding. */
module Wrappers {
  datatype Option<+T> = None | Some(value: T)
}
