/** Small shared vocabulary of the model. */
module Common {

  /** A value that may be absent: Python's `None` beside a real value. */
  datatype Option<+T> = None | Some(value: T)

  /** A computed value, or the error code of the exception that was raised. */
  datatype Result<+T> = Ok(value: T) | Err(code: string)
}
