/** The exceptions the modelled Python code raises, and the values that carry them. */
module Errors {

  /** A value that may be absent (Python's `None`). */
  datatype Option<+T> = None | Some(value: T)

  /** A Python exception, by class, with the data its message is built from. */
  datatype Error =
    | TypeError(op: string, left: string, right: string)  // "Unsupported operand types for <op>: '<left>' and '<right>'"
    | NotImplementedError(message: string)
    | ValueError(message: string)
    | KeyError(key: string)
    | AttributeError(typeName: string, attribute: string)
    | ConnectionError                                      // the bridge refused or did not answer the handshake

  /** What a Python call that returns a value does: return it, or raise. */
  datatype Result<+T> = Ok(value: T) | Err(error: Error)

  /** What a Python call that returns nothing does: return, or raise. */
  datatype Outcome = Pass | Fail(error: Error)
}
