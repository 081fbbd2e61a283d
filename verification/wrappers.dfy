/** Optional values and results that carry either a value or the exception
    the original program would raise. */
module Wrappers {

  datatype Option<+T> = None | Some(value: T)

  datatype Result<+R, +E> = Success(value: R) | Failure(error: E)

  /** The Python exceptions the modelled code can raise. */
  datatype Exception =
    | IndexError(what: string)    // list index out of range, pop from an empty list
    | KeyError(key: string)       // a JSON field that is absent
    | TypeError(what: string)     // ord() applied to a string whose length is not 1
    | ValueError(what: string)    // argmax of an empty row, bad accumulation setting
    | AssertionError              // the length checks after padding
}
