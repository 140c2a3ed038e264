/** Optional values and the two ways a Python call can end, shared by the
    cleaning, loading and recommendation modules. */
module Wrappers {

  /** A value the Python code may leave out or pass as `None`. */
  datatype Option<+T> = None | Some(value: T)

  /** The exceptions the modelled code can raise. */
  datatype PyError = ValueError | KeyError

  /** A Python call either returns a value or raises. */
  datatype Outcome<+T> = Returns(value: T) | Raises(error: PyError)
}
