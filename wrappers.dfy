/** Option and Result values, and the Python exceptions the modelled code raises. */
module Wrappers {

  datatype Option<+T> = None | Some(value: T) {
    function GetOr(default: T): T {
      match this
      case Some(v) => v
      case None => default
    }
  }

  /** The exceptions the modelled Python code can raise, as values. */
  datatype PyError =
    | ValueError(message: string)
    | KeyError(key: string)
    | TypeError
    | AttributeError
    | IndexError
    | AssertionError
    | UnboundLocalError(name: string)
    | FileNotFoundError
    | Uncaught(repr: string)  // a BaseException outside `Exception`, e.g. SystemExit

  datatype Result<+T> = Ok(value: T) | Err(error: PyError)
}
