/** The two sum types the rest of the model shares: an optional value (a nullable
    column, `scalar_one_or_none`) and a value-or-error (a raised domain error). */
module Outcomes {
  datatype Option<+T> = None | Some(value: T)

  datatype Result<+T, +E> = Ok(value: T) | Err(error: E)
}
