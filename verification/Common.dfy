/** Result and option types shared by the modules of the project. */
module Common {
  datatype Option<+T> = None | Some(value: T)

  /** A Rust `Result`: the value of a call, or the error it returns. */
  datatype Result<+T, +E> = Ok(value: T) | Err(error: E)
}
