/** The outcome of an operation that can fail, in place of Go's `(value, error)` pair. */
module Results {

  datatype Result<+T, +E> = Ok(value: T) | Err(error: E)
}
