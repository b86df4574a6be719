/** Results of operations whose Python or C original can fail. */
module Wrappers {

  datatype Option<T> = None | Some(value: T)

  /** The Python exception an operation raises, by kind. */
  datatype Raised =
    | KeyError
    | IndexError
    | ValueError
    | TypeError
    | AttributeError
    | ZeroDivisionError
    | ConstructError   // a construct-library parse or build failure
    | MissingKwargsError

  datatype Result<T> = Ok(value: T) | Err(raised: Raised)
}
