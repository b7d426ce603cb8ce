/** Outcomes of operations that can fail. */
module Results {

  /** `Result<T, E>` with the error kept as its displayed message. */
  datatype Result<T> = Ok(value: T) | Err(error: string)

  datatype Option<T> = None | Some(value: T)
}
