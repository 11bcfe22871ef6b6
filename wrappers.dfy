/** Rust's `Option`, as far as the model needs it. */
module Wrappers {
  datatype Option<T> = None | Some(value: T)
}
