/** Option and Result, the failure-carrying values the model returns where
    the Python code returns None or raises. */
module Wrappers {

  datatype Option<+T> = None | Some(value: T)

  /** The Python exceptions the modelled code can raise on its own. */
  datatype PyError =
    | IndexError      // a list or string index out of range
    | AssertionError  // a failed `assert` statement
    | AttributeError  // an attribute the object does not have
    | ValueError      // unpacking a list of the wrong length, or a negative
                      // size given to `itertools.combinations`

  datatype Result<+T> = Ok(value: T) | Err(error: PyError)
}
