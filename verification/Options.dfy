// Result types shared by every module.
module Options {

  datatype Option<+T> = None | Some(value: T)
  {
    predicate IsFailure() { None? }

    function PropagateFailure<U>(): Option<U>
      requires None?
    {
      None
    }

    function GetOr(otherwise: T): T { if Some? then value else otherwise }

    function Extract(): T
      requires Some?
    {
      value
    }
  }

  // A check that fails with the whole expression.
  function Need(condition: bool): Option<()> { if condition then Some(()) else None }

  // A raised exception is an Err; callers test with `Ok?`.
  datatype Result<+T, +E> = Ok(value: T) | Err(error: E)
}
