/** Option and Result, and the Python exceptions the modelled code raises. */
module Wrappers {

  datatype Option<+T> = None | Some(value: T)

  datatype Result<+R, +E> = Success(value: R) | Failure(error: E)

  /** The Python exception classes that the modelled code raises or catches. */
  datatype ExceptionKind = TypeError | NotImplementedError | ValueError

  /**
   * A raised exception: its class and its `args`, each already converted with `str`
   * (the debug wrapper only ever looks at `''.join(map(str, e.args))`).
   */
  datatype Exception = Exception(kind: ExceptionKind, args: seq<string>)
}
