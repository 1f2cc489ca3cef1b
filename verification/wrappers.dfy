/** Optional values and error-carrying results, used wherever the Python code
    reads a key that may be absent or raises an exception that a caller catches. */
module Wrappers {

  datatype Option<+T> = None | Some(value: T) {

    /** The value, or `default` when absent (Python's `d.get(key, default)`). */
    function GetOr(default: T): T {
      match this
      case Some(v) => v
      case None => default
    }
  }

  /** Exceptions raised by the modelled code that some caller catches. */
  datatype Error =
    | KeyError(key: string)        // a missing dictionary key read with `d[key]`
    | AttributeError(name: string) // an attribute that was never set
    | IndexError                   // an index outside a numpy row
    | ZeroDivisionError            // an integer division by zero
    | TypeError                    // an ordering comparison between a number and a string

  datatype Result<+T> = Ok(value: T) | Err(error: Error)
}
