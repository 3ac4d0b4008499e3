/** Small wrapper types shared by the stages of the front end. */
module Common {
  /** An optional, singly-owned value (the `unique_ptr` that may be null). */
  datatype Option<T> = None | Some(value: T)

  /** The outcome of an operation that the source ends with a `std::runtime_error`. */
  datatype Result<T> = Ok(value: T) | Err(error: string)
}
