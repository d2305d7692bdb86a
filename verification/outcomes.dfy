/** Optional values and fault-carrying results for the typed array view.
    The source never reports an error: a failure is either a fired `assert`
    or undefined behaviour. The model names each such failure instead. */
module Outcomes {

  datatype Option<+T> = None | Some(value: T)

  /** The ways an operation of the view goes wrong. None is recoverable in the source. */
  datatype Fault =
    | AssertionFailure   // an `assert(_data.get() != 0)` fires on a view with no backing array
    | NullDereference    // a member of the backing array is called through a null pointer
    | OutOfRangeWrite    // a slot past the end of an engine array is written

  datatype Result<+T> = Ok(value: T) | Err(fault: Fault)
}
