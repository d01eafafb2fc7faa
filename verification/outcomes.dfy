/** Result types shared by the whole project. */
module Outcomes {
  datatype Option<+T> = None | Some(value: T)

  /** The Python functions either return or raise; `Err` carries what was raised. */
  datatype Result<+T, +E> = Ok(value: T) | Err(error: E)
}
