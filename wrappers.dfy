/** The optional value used for a fetch that may fail and a search that may find nothing. */
module Wrappers {
  datatype Option<+T> = None | Some(value: T)
}
