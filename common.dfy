/** Values shared by every module of the model: optional values, results
    that carry the Python exception the code would raise, and the string
    form Python gives to the scalars the queries are built from. */
module Common {

  datatype Option<+T> = None | Some(value: T)

  /** The Python exceptions the modelled code raises, by class. */
  datatype Error =
    | TypeError(msg: string)
    | KeyError(key: string)
    | AttributeError(name: string)
    | ValueError(msg: string)
    | NameError(name: string)
    /** an exception raised by a collaborator (a task's callable, the
        result sink) and carried through unchanged, as str(exc) */
    | Propagated(msg: string)

  /** A computation that either returns a value or raises. */
  datatype Result<+T> = Ok(value: T) | Err(error: Error)

  /** A scalar the code manipulates: a string, or Python's None. */
  type Value = Option<string>

  /** str(v) and f"{v}" of a scalar: None prints as "None". */
  function Str(v: Value): string
  {
    match v
    case Some(x) => x
    case None => "None"
  }

  /** A query parameter as callers pass it: one scalar, or a Python list. */
  datatype Param = Scalar(v: Value) | List(items: seq<Value>)
}
