/** Failure-carrying wrappers shared by the whole model. */
module Results {

  /** A value that may be absent: Go's nil pointer, nil interface or empty result. */
  datatype Option<+T> = None | Some(value: T)

  /** Either a value or an error. */
  datatype Result<+T, +E> = Ok(value: T) | Err(error: E)
}
