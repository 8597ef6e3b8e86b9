/** Option and Result values used where the patcher returns null or throws. */
module Outcomes {

  /** A possibly absent value; `None` stands for Java's null. */
  datatype Option<+T> = None | Some(value: T)

  /** The outcome of an operation that may raise an exception; `Err` carries its message. */
  datatype Result<+T> = Ok(value: T) | Err(message: string)
}
