/** Success/failure wrappers shared by every layer of the forum model. */
module Results {

  /** An optional value: a SQL lookup that found no row yields None. */
  datatype Option<+T> = None | Some(value: T)

  /** The outcome of a call that can throw: Ok carries the value the
      JavaScript code returns, Err the error object it throws. */
  datatype Result<+T, +E> = Ok(value: T) | Err(error: E)
}
