/** Optional values, shared by the executor and discovery models (Rust's `Option`). */
module Wrappers {

  datatype Option<+T> = None | Some(value: T)
}
