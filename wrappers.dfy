/** Option and Result, and the Python exceptions the generator can raise. */
module Wrappers {

  datatype Option<+T> = None | Some(value: T) {
    /** `value` when present, `default` otherwise (Python's `dict.get(key, default)`). */
    function GetOr(default: T): T {
      match this
      case Some(v) => v
      case None => default
    }
  }

  /** The exceptions raised by the modelled code; none of them is caught. */
  datatype Error =
    | KeyError(key: string)   // missing mapping key, or unknown enum member name
    | ValueError              // the `case _` branches of the emitters and of `_compose`
    | IndexError              // `values[0]` of an empty list
    | TypeError               // slicing a mapping: FLAGS `values` given as a mapping
    | AttributeError          // `.items()` on a list: ALIASES `values` given as a list

  datatype Result<+T> = Ok(value: T) | Err(error: Error) {
    predicate IsFailure() {
      Err?
    }

    function PropagateFailure<U>(): Result<U>
      requires Err?
    {
      Err(error)
    }

    function Extract(): T
      requires Ok?
    {
      value
    }
  }
}
