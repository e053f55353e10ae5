/** The Python exceptions the modelled snippets can raise, a Result type that
    carries either a value or the exception that replaced it, and an Option
    type for Python's "a value or None". */
module Exceptions {

  /** The built-in exceptions raised by the modelled code. */
  datatype PyError =
    | KeyError(key: string)       // dict lookup of a missing key
    | ValueError                  // list.remove of an absent element
    | AttributeError(attr: string) // attribute looked up on None

  /** Either the value an operation returns or the exception it raises. */
  datatype Result<+T> = Ok(value: T) | Err(error: PyError)

  /** A value or Python's `None`. */
  datatype Option<+T> = None | Some(value: T)
}
