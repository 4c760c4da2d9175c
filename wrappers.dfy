/** Option and Result, standing in for C# null returns and thrown exceptions. */
module Wrappers {

  datatype Option<+T> = None | Some(value: T)

  /** The exceptions the modelled code throws (or lets a collaborator throw). */
  datatype Error =
    | ArgumentOutOfRange(paramName: string, message: string)
    | KeyNotFound(key: string)
    | InvalidCast(fromType: string, toType: string)

  datatype Result<+T> = Ok(value: T) | Err(error: Error)
}
