/** Small value types shared by every module of the model. */
module Wrappers {

  datatype Option<+T> = None | Some(value: T)

  /** The Python exceptions that escape from the modelled code. */
  datatype PyError =
    | KeyError(key: string)
    | TypeError
    | AttributeError(name: string)

  /** Whether a statement sequence ran to its end or raised an exception that
      nothing in the program catches. */
  datatype Outcome = Done | Raised(error: PyError)

  /** A Python value that is an int, a str or None (the keys of the
      `disctotals` dictionary, for one). */
  datatype Scalar = PyInt(i: int) | PyStr(s: string) | PyNone
}
