/** The optional value used for a result that may be absent (Python's None). */
module Wrappers {
  datatype Option<+T> = None | Some(value: T)
}
