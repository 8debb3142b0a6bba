/** Option and Result, and the Python exceptions the modelled code can end with. */
module Wrappers {

  datatype Option<+T> = None | Some(value: T)

  /** The exception a Python call ends with, as far as the model distinguishes them. */
  datatype Error =
    | UnboundLocal(name: string)   // UnboundLocalError: a local read before assignment (a NameError)
    | KeyError                     // a dict lookup of an absent key
    | TypeError                    // an operation on operands of the wrong types
    | IndexError                   // a list index out of range
    | ValueError                   // an explicit ValueError
    | AttributeError(name: string) // a missing attribute
    | UnicodeDecodeError           // bytes that are not ASCII
    | PinCountMismatch             // the NameError extract_pinout_quad raises
    | DownloadFailed               // the NameError a download with a bad status raises

  datatype Result<+T> = Success(value: T) | Failure(error: Error) {

    predicate IsFailure() {
      Failure?
    }

    function PropagateFailure<U>(): Result<U>
      requires Failure?
    {
      Failure(error)
    }

    function Extract(): T
      requires Success?
    {
      value
    }
  }
}
