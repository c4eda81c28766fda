/** Small value wrappers shared by the chat and viewer models. */
module Common {

  /** A value that may be absent: `undefined` in the TypeScript source. */
  datatype Option<T> = None | Some(value: T)

  /** The outcome of a step that may throw. */
  datatype Result<T, E> = Ok(value: T) | Err(error: E)
}
