/** Option and Result types, and the Python exception classes that the modelled
    code can raise. An exception that the source raises becomes `Err(e)`. */
module Wrappers {

  datatype Option<+T> = None | Some(value: T)

  /** The Python exception classes raised by the modelled code. */
  datatype PyError =
    | IndexError      // subscript beyond the end of a list or string
    | KeyError        // dictionary lookup of an absent key
    | ValueError      // explicit `raise ValueError`
    | AttributeError  // attribute access on an object that lacks it
    | TypeError       // `"".join` over a list holding a non-string
    | AssertionError  // a failed `assert` in a constructor

  datatype Result<+T> = Ok(value: T) | Err(error: PyError)
}
