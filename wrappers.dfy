/** Small result types shared by every module of the model. */
module Wrappers {

  datatype Option<T> = None | Some(value: T)

  datatype Result<T, E> = Ok(value: T) | Err(error: E)

  /** How an operation ends abnormally: an error the program reports and
      recovers from (a `Result::Err` in the source), or a Rust panic
      (`unwrap` on an error, arithmetic overflow in a debug build, an
      out-of-bounds index), which unwinds and ends the process. */
  datatype Failure = Error(msg: string) | Panic(msg: string)
}
