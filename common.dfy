/** Small wrappers shared by every module: an optional value and the outcome of a store call. */
module Common {

  datatype Option<T> = None | Some(value: T)

  /** A store call either yields a value or fails with the store's error message. */
  datatype Result<T> = Ok(value: T) | Err(message: string)

  /** The message every failed store call carries; its text is not modelled. */
  const StoreFailure: string := "store error"
}
