/** Failure-carrying values used for the source's `null` results and thrown errors. */
module Results {

  /** `null`/`undefined` versus a present value. */
  datatype Option<+T> = None | Some(value: T)

  /** A value, or the error an operation throws. */
  datatype Result<+T, +E> = Ok(value: T) | Err(error: E)
}
