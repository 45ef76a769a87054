/** The Python exceptions the modelled code can raise, and a result type that
    carries either a value or the exception that interrupted the computation. */
module Exceptions {

  /** The exception classes the core can raise: an out-of-range list index,
      a missing mapping key, a malformed format string, a unicode value
      that the ASCII codec cannot turn into `str`, and urllib2's URLError
      with its reason for a URL that could not be opened. */
  datatype Exception =
    | IndexError
    | KeyError(key: string)
    | ValueError
    | UnicodeEncodeError
    | UrlError(reason: string)

  /** The value of a Python expression, or the exception it raised. */
  datatype Result<+T> = Ok(value: T) | Raised(exc: Exception) {

    predicate IsFailure() {
      Raised?
    }

    function PropagateFailure<U>(): Result<U>
      requires Raised?
    {
      Raised(exc)
    }

    function Extract(): T
      requires Ok?
    {
      value
    }
  }

  datatype Option<+T> = None | Some(value: T)
}
