/** Failure-carrying values shared by the input parser and the calculate handler. */
module Results {

  /** The outcome of the number parser: a value, or nothing when the text is not a number. */
  datatype Option<+T> = None | Some(value: T)

  /** Either a computed value or the error that stopped the computation. */
  datatype Result<+R, +E> = Success(value: R) | Failure(error: E)
}
