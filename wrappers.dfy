/** The optional value the model uses for `maxK=None` and for searches that may find nothing. */
module Wrappers {
  datatype Option<T> = None | Some(value: T)
}
