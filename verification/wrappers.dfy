/** Failure-compatible result types shared by the whole model. */
module Wrappers {

  /** Rust's `Option<T>`: the value is absent (`None`) or present (`Some`). */
  datatype Option<+T> = None | Some(value: T)
}
