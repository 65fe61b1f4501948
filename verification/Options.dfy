/** Optional values, and the outcome of a validation step. */
module Options {

  datatype Option<+T> = None | Some(value: T)

  /** The result of one check. A chain of checks written with `Then` ends at the first failure. */
  datatype Check<+E> = Pass | Fail(error: E) {
    function Then(next: Check<E>): Check<E> {
      if Fail? then this else next
    }
  }
}
