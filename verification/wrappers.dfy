/** The optional-value and pass/fail datatypes the rest of the model uses in
    place of JavaScript's `null`/`undefined` and thrown errors. */
module Wrappers {

  /** `None` stands for `null` or `undefined`; `Some(v)` for a present value. */
  datatype Option<+T> = None | Some(value: T) {

    /** The carried value, or `default` when there is none (JavaScript's `a ?? b`). */
    function GetOr(default: T): T {
      match this
      case Some(v) => v
      case None => default
    }
  }

  /** The result of an operation that either completes or rejects with an error. */
  datatype Outcome<+E> = Pass | Fail(error: E)
}
