/** The two result shapes the model uses for Go's nil pointers and error returns.
    Error values carry no text: messages are not part of the model. */
module Wrappers {
  datatype Option<+T> = None | Some(value: T)

  datatype Result<+T> = Ok(value: T) | Err
}
