/** How the modelled Python code ends: it returns a value or it raises. */
module Outcomes {

  datatype Option<T> = None | Some(value: T)

  /** The built-in Python exceptions the modelled code can raise and does not catch. */
  datatype PyError =
    | AssertionError      // a failed `assert`
    | IndexError          // a list index out of range
    | ValueError          // `list.index` of a missing element, a numpy shape that cannot broadcast
    | FileNotFoundError   // opening a file that does not exist

  datatype Outcome<T> = Returned(value: T) | Raised(error: PyError)
}
