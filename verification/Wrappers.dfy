/** Failure-compatible results, shared by every component. */
module Wrappers {

  datatype Option<+T> = None | Some(value: T)

  /** A computed value, or the error the source raises instead. */
  datatype Result<+T, +E> = Ok(value: T) | Err(error: E) {
    predicate IsFailure() {
      Err?
    }

    function PropagateFailure<U>(): Result<U, E>
      requires Err?
    {
      Err(error)
    }

    function Extract(): T
      requires Ok?
    {
      value
    }
  }

  /** `raise error` unless the condition holds. */
  function Need<E>(condition: bool, error: E): Result<(), E> {
    if condition then Ok(()) else Err(error)
  }

  /** A step ends with a value, raises, or dies with its process. */
  datatype Fate<+T> = Done(value: T) | Raised(code: string) | Crashed {
    predicate IsFailure() {
      !Done?
    }

    function PropagateFailure<U>(): Fate<U>
      requires !Done?
    {
      if Raised? then Fate.Raised(code) else Fate.Crashed
    }

    function Extract(): T
      requires Done?
    {
      value
    }
  }

  function Lift<T>(r: Result<T, string>): Fate<T> {
    if r.Ok? then Done(r.value) else Fate.Raised(r.error)
  }
}
