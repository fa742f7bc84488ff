/** Success-or-error and present-or-absent results, in place of the operator's (value, error)
    pairs and nil results. */
module Outcomes {
  datatype Option<+T> = None | Some(value: T)

  datatype Result<+T, +E> = Ok(value: T) | Err(error: E)
}
