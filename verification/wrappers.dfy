/** The optional value used for the envelope's `data` field (Python's `None` or a value). */
module Wrappers {
  datatype Option<+T> = None | Some(value: T)
}
