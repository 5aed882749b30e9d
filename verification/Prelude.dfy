/** Small types shared by every module. */
module Prelude {
  datatype Option<+T> = None | Some(value: T)

  /** A C++ call that may throw: `Err` carries the exception's reason. */
  datatype Result<+T> = Ok(value: T) | Err(reason: string)
}
