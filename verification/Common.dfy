/** Types shared by every model in this project. */
module Common {
  /** Row and process identifiers. UUIDv7 values are modelled by their order. */
  type Id = nat

  datatype Option<+T> = None | Some(value: T) {
    predicate IsFailure() { None? }

    function PropagateFailure<U>(): Option<U>
      requires None?
    {
      None
    }

    function Extract(): T
      requires Some?
    {
      value
    }
  }
}
