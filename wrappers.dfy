/**
 The failure values of the modelled Python code. The registry tool signals
 every failure by raising an exception; here an operation that can fail
 returns a `Result` whose `Err` carries the exception that would have been
 raised.
 */
module Wrappers {

  /** A value that may be missing: Python's `None` for a nullable column. */
  datatype Option<+T> = None | Some(value: T)

  /** The exceptions the modelled code can raise. */
  datatype Exception =
    | DoesNotExist(param: string)     // peewee: `Dump.get` found no row with this key
    | ValueError(literal: string)     // Python: `int(...)` of a text that is not an integer
    | AttributeError(attribute: string) // Python: attribute lookup on an object that lacks it

  datatype Result<+T> = Ok(value: T) | Err(error: Exception)
}
