/** Option and Result values used for the sources' Option<T> and Result<T, E>. */
module Outcomes {

  datatype Option<+T> = None | Some(value: T)

  datatype Result<+T, +E> = Ok(value: T) | Err(error: E)
}
