/** Option and Result datatypes shared by the model: a `Result` stands for a
    C++ exception or a fatal exit, an `Option` for a nullable pointer. */
module Wrappers {

  datatype Option<+T> = None | Some(value: T)

  datatype Result<+T> = Ok(value: T) | Err(error: string)
}
