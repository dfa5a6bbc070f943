// Results of operations that may be refused.
module Wrappers {

  datatype Option<+T> = None | Some(value: T)

  datatype Result<+T> = Ok(value: T) | Error(message: string)
}
