/** Option and Result, the value-or-absence and value-or-error wrappers the model returns. */
module Base {

  datatype Option<+T> = None | Some(value: T)

  datatype Result<+T, +E> = Ok(value: T) | Err(error: E)
}
