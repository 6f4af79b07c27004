/** Option and Result, the two shapes Rust's `find` and `Result<_, NSCFGError>` take here. */
module Wrappers {

  datatype Option<+T> = None | Some(value: T)

  datatype Result<+T, +E> = Ok(value: T) | Err(error: E)
}
