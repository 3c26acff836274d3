/** Small result types shared by every module of the model. */
module Wrappers {

  /** A value that may be missing: Python's `None` or an absent dictionary key. */
  datatype Option<+T> = None | Some(value: T)

  /** The Python exceptions that the modelled code lets escape to its caller. */
  datatype PyError =
    | KeyError       // a missing dictionary key, or `d[k] -= x` on an absent key
    | IndexError     // `chain[0]` or `chain[-1]` on an empty list
    | ValueError     // `bytes.fromhex` on text that is not hexadecimal
    | TypeError      // `int(None)` while loading a stored document
    | LibraryError   // an exception of the signature library other than a bad signature

  /** The result of a Python call that either returns a value or raises. */
  datatype Outcome<+T> = Returned(value: T) | Raised(error: PyError)
}
