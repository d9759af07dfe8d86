/** Option and Result datatypes shared by the drawing model. */
module Results {

  /** An optional value: what a partial decoder returns. */
  datatype Option<+T> = None | Some(value: T)

  /** The outcome of an operation that can fail with an error of type `E`. */
  datatype Result<+T, +E> = Ok(value: T) | Err(error: E)
}
