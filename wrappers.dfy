/** Python's `None`-or-value, as an explicit option type. */
module Wrappers {
  datatype Option<+T> = None | Some(value: T)
}
