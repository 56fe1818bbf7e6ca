/** Option and Result values, the model's stand-ins for Go's nil pointers and
    `(value, error)` return pairs. */
module Results {

  /** A value that may be absent, like a Go pointer that may be nil. */
  datatype Option<+T> = None | Some(value: T)

  /** The outcome of an operation that returns either a value or an error. */
  datatype Result<+T, +E> = Ok(value: T) | Err(error: E)
}
