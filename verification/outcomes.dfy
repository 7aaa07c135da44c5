/** Failure-carrying values used across the model: a lookup that may find
    nothing, and a run that may abort with an error. */
module Outcomes {

  datatype Option<T> = None | Some(value: T)

  datatype Result<T, E> = Ok(value: T) | Err(error: E)
}
