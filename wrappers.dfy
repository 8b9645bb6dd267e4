/** Option and Result, and the Python exceptions that the modelled code lets escape. */
module Wrappers {

  datatype Option<+T> = None | Some(value: T)

  /** The exception classes that the modelled Python code raises or lets propagate. */
  datatype PyError =
    | TypeError          // iterating a non-iterable, subscripting a non-container, hashing a list or dict
    | AttributeError     // `.get`, `.endswith`, `.split`, `.spelling`, `.name` on a value that lacks it
    | KeyError(key: string)
    | NotImplementedError
    | FileNotFoundError  // opening a target file the reply directory does not hold

  datatype Result<+T> = Ok(value: T) | Err(error: PyError)
}
