/** A value that may be missing, or the result of a step that may fail. */
module Options {

  datatype Option<+T> = None | Some(value: T)
  {
    predicate IsFailure() { None? }
    function PropagateFailure<U>(): (r: Option<U>)
      requires None?
    {
      None
    }
    function Extract(): (v: T)
      requires Some?
    {
      value
    }
  }
}
