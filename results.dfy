/** Go's `(value, error)` and nilable-error conventions, as values. */
module Results {

  /** A value that may be absent; `None` plays Go's `nil`. */
  datatype Option<+T> = None | Some(value: T)

  /** An opaque Go `error`: only its text is observable. */
  datatype Error = Error(message: string)

  /** The outcome of a call that returns `(T, error)`: exactly one side is non-nil. */
  datatype Result<+T> = Ok(value: T) | Err(error: Error)
}
