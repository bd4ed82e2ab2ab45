/** Failure-compatible wrappers and the Python exceptions the model reports. */
module Base {

  datatype Option<+T> = None | Some(value: T) {
    predicate IsFailure() { None? }

    function PropagateFailure<U>(): Option<U>
      requires None?
    {
      None
    }

    function Extract(): T
      requires Some?
    {
      value
    }

    function GetOr(default: T): T {
      match this
      case Some(v) => v
      case None => default
    }
  }

  /** The exceptions a Python operation of the core can raise, plus one tag for
      an outcome the model deliberately does not interpret (an ordering or an
      arithmetic step on floating-point numbers, an ordering of lists). */
  datatype PyError =
    | KeyError
    | IndexError
    | TypeError
    | AttributeError
    | ValueError
    | OSError
    | NotModelled

  datatype Result<+T> = Success(value: T) | Failure(error: PyError) {
    predicate IsFailure() { Failure? }

    function PropagateFailure<U>(): Result<U>
      requires Failure?
    {
      Failure(error)
    }

    function Extract(): T
      requires Success?
    {
      value
    }
  }

  /** Regrouping a concatenation of four sequences. */
  lemma ConcatAssoc4<T>(a: seq<T>, b: seq<T>, c: seq<T>, d: seq<T>)
    ensures a + b + c + d == a + (b + c + d)
  {
  }
}
