/** Datatypes and arithmetic shared by every component of the model. */
module Common {

  datatype Option<+T> = None | Some(value: T) {
    predicate IsFailure() { None? }

    function PropagateFailure<U>(): Option<U>
      requires None?
    {
      None
    }

    function Extract(): T
      requires Some?
    {
      value
    }
  }

  function Max(a: int, b: int): int { if a < b then b else a }

  function One(b: bool): int { if b then 1 else 0 }

  function Min(a: int, b: int): int { if a < b then a else b }
}
