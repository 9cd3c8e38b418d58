/** Results of operations that may refuse, and two small functions that several modules use. */
module Common {

  datatype Option<+T> = None | Some(value: T)

  datatype Result<+T, +E> = Success(value: T) | Failure(error: E) {
    predicate IsFailure() {
      Failure?
    }

    function PropagateFailure<U>(): Result<U, E>
      requires Failure?
    {
      Failure(error)
    }

    function Extract(): T
      requires Success?
    {
      value
    }
  }

  function Abs(x: real): real {
    if x < 0.0 then -x else x
  }

  /** One when it holds, zero when it does not. */
  function Once(b: bool): nat {
    if b then 1 else 0
  }
}
