/** Optional values and results. */
module Wrappers {
  datatype Option<T> = None | Some(value: T) {

    /** This value if there is one, the other otherwise. */
    function OrElse(other: Option<T>): Option<T> {
      if this.Some? then this else other
    }
  }

  datatype Result<T, E> = Ok(value: T) | Err(error: E) {

    predicate IsFailure() {
      Err?
    }

    function PropagateFailure<U>(): Result<U, E>
      requires Err?
    {
      Err(error)
    }

    function Extract(): T
      requires Ok?
    {
      value
    }
  }
}
