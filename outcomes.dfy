/** Results of operations that, in the deployment tool, either return or raise. */
module Outcomes {

  datatype Option<+T> = None | Some(value: T)

  /** A value, or the message of the exception raised instead of returning one. */
  datatype Result<+T> = Ok(value: T) | Err(msg: string)

  /** Normal completion of an operation that returns nothing, or the exception it raises. */
  datatype Outcome = Pass | Raise(msg: string)
}
