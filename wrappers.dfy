/** Option and Result wrappers, and the Python exceptions the build script can raise. */
module Wrappers {

  datatype Option<+T> = None | Some(value: T)

  /** The exceptions raised by dodo.py that the model keeps. */
  datatype Error =
    | KeyError(key: string)          // a dict lookup on a missing key
    | NotImplementedError            // `basename` of the plain Targets class
    | AttributeError(name: string)   // a class attribute the target class does not define
    | IndexError                     // a list subscript past the end
    | ValueError(message: string)    // `patch` that changed nothing

  /** Either a value or the exception that the Python code raises instead. */
  datatype Result<+T> = Ok(value: T) | Err(error: Error)
}
