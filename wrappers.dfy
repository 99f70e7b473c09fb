/** Small failure-carrying datatypes shared by every module of the model. */
module Wrappers {

  datatype Option<+T> = None | Some(value: T)

  datatype Result<+T, +E> = Ok(value: T) | Err(error: E)

  /** The outcome of running Rust code that may panic: an `unwrap` on
      `None` or `Err`, a `todo!()`, or an index out of range. */
  datatype Run<+T> = Done(value: T) | Panicked
}
