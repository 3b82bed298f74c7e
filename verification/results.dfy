/** The two answer shapes of the transaction API: a callback's possibly
    `null` result, and the outcome of `operate` or `execute`, which either
    hands back a value or reports one of the transaction's exceptions. */
module Results {

  /** A callback's result: `None` is the Java `null` an operator may return
      to stop `createPos`, keep existing data or remove an entry. */
  datatype Option<+T> = None | Some(value: T)

  /** The outcome of `operate` or `execute`: the new transaction or template,
      or the exception reported instead. The members below let the phases of
      `execute` stop at the first exception, which then aborts the whole
      execution. */
  datatype Result<+T, +E> = Success(value: T) | Failure(error: E) {

    predicate IsFailure() {
      Failure?
    }

    function PropagateFailure<U>(): Result<U, E>
      requires Failure?
    {
      Failure(error)
    }

    function Extract(): T
      requires Success?
    {
      value
    }
  }
}
