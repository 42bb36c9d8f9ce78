/** Option, as in Rust. */
module Wrappers {
  datatype Option<+T> = None | Some(value: T)
}
