/** Optional values and fallible outcomes. */
module Results {

  datatype Option<+T> = None | Some(value: T)

  /** The outcome of a fallible operation; error messages are not modelled. */
  datatype Result<+T> = Ok(value: T) | Err {
    predicate IsFailure() { Err? }
    function PropagateFailure<U>(): Result<U>
      requires Err?
    {
      Err
    }
    function Extract(): T
      requires Ok?
    {
      value
    }
  }
}
