/** The optional value the models use for a search that may find nothing. */
module Wrappers {
  datatype Option<T> = None | Some(value: T)
}
