/** Values shared by every part of the model: an optional value (Python's
    `None` or a value) and the outcome of a call that may raise. */
module Outcomes {

  /** A Python value that may be `None`. */
  datatype Option<+T> = None | Some(value: T)

  /** The outcome of a Python call: it returns a value or raises an exception
      carrying a message. */
  datatype Outcome<+T> = Returned(value: T) | Raised(message: string)
}
