/** Types shared by every module of the model. */
module Base {
  /** Row identifiers and foreign keys. Only equality is ever used. */
  type Uuid = nat

  datatype Option<+T> = None | Some(value: T)

  /** What a service call returns: a value, or the exception it raised. */
  datatype Result<+T, +E> = Ok(value: T) | Err(error: E)
}
