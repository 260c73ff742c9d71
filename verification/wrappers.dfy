/** Failure-carrying values shared by every module of the model. */
module Wrappers {

  datatype Option<+T> = None | Some(value: T)

  datatype Result<+R, +E> = Success(value: R) | Failure(error: E)

  datatype Outcome<+E> = Pass | Fail(error: E)

  /** The Python exceptions the modelled code can raise. */
  datatype PyError =
    | IndexError                 // positional lookup outside a frame
    | KeyError(arg: string)      // a missing dictionary key (the key, or a message naming it)
    | TypeError                  // operation applied to a value of the wrong kind
    | AttributeError             // method called on None (or on the wrong kind of value)
    | ValueError(message: string)
}
