/** Small failure-carrying datatypes shared by the chat and ingestion models. */
module Common {

  /** A value that may be absent; `None` also stands for JavaScript's `null`/`undefined`. */
  datatype Option<+T> = None | Some(value: T)

  /** The outcome of an operation that can raise: `Err` models a thrown exception. */
  datatype Result<+T, +E> = Ok(value: T) | Err(error: E)
}
