/** The Some/None datatype used for "this sprite is still in its list" results. */
module Wrappers {
  datatype Option<+T> = None | Some(value: T)
}
