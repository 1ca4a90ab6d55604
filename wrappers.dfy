/** Option and Result values for the error returns and nil pointers of the source. */
module Wrappers {

  datatype Option<+T> = None | Some(value: T)

  datatype Result<+R> = Ok(value: R) | Err(error: string)
}
