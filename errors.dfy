/** The two Python exceptions the modelled code can raise, and the result type
    that carries either a value or one of them. */
module Errors {

  /** An exception raised by the modelled code, with its message. */
  datatype PyError =
    | AssertionError(message: string)   // a failed `assert` statement
    | ValueError(message: string)       // raised by numpy when allocating a buffer

  /** Either the value an operation produces or the exception it raises. */
  datatype Result<T> = Ok(value: T) | Err(error: PyError)
}
