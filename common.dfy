/** Failure-compatible wrappers shared by the modules of this model. */
module Common {

  /** A value that may be absent (`T | undefined`, `T | null`). */
  datatype Option<+T> = None | Some(value: T)

  /** The outcome of an operation that may throw (`throw new Error(message)`). */
  datatype Result<+T> = Success(value: T) | Failure(message: string)
}
