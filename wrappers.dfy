/** Option and Result values: Python's `None` and the exceptions the scraper lets escape. */
module Wrappers {

  /** A value that may be missing (Python's `None`). */
  datatype Option<+T> = None | Some(value: T)

  /** The Python exception classes that the modelled code can raise. */
  datatype Error =
    | IndexError       // indexing past the end of a list or string
    | AttributeError   // an attribute looked up on `None` (or on a `str`)
    | NameError        // a name the module never defined or imported

  /** The outcome of a call that either returns a value or raises. */
  datatype Result<+T> = Ok(value: T) | Err(error: Error)
}
