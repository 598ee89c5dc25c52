/** The two failure types shared by the models: a lookup that may miss, and a
    fallible operation with its error value. */
module Results {
  datatype Option<+T> = None | Some(value: T)

  datatype Result<+T, +E> = Ok(value: T) | Err(error: E)
}
