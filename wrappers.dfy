/** Python's `None`-or-value, used for the handler's optional fields. */
module Wrappers {
  datatype Option<+T> = None | Some(value: T)
}
