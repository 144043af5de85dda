/** Results of operations that can fail, and optional values. */
module Wrappers {
  datatype Option<+T> = None | Some(value: T)

  /** The error kinds of the application and pipeline layers that the modelled operations return. */
  datatype Error =
    | InvalidInput | NotFound | Conflict | Storage
    | MalformedInput | ValidationRejected | TooLarge

  datatype Result<+T> = Ok(value: T) | Err(error: Error)
}
