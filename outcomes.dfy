/** Option and Result values used wherever the application receives the answer of a
    database, HTTP or model call: either data or an error. */
module Outcomes {

  datatype Option<+T> = None | Some(value: T)

  datatype Result<+T> = Ok(value: T) | Err(error: string)
}
