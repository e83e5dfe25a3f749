/** Values that may be absent: nil channels, nil connections, zero times. */
module Wrappers {
  datatype Option<+T> = None | Some(value: T)
}
