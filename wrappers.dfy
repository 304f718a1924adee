/** Option and Result: the model's stand-ins for Java's null and for a thrown RuntimeException. */
module Wrappers {

  datatype Option<+T> = None | Some(value: T)

  datatype Result<+T, +E> = Ok(value: T) | Err(error: E)
}
