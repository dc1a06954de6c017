/** Absent values and error returns shared by every module of the model. */
module Options {

  /** A value that may be missing: the source's `null` (or `undefined`). */
  datatype Option<+T> = None | Some(value: T)

  /** The outcome of an operation that can fail with a user-visible message. */
  datatype Result<+T> = Ok(value: T) | Err(message: string)
}
