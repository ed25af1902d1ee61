/** Small value wrappers shared by the modules of the model. */
module Wrappers {

  /** A value that may be absent (JavaScript's `undefined` / `null`). */
  datatype Option<+T> = None | Some(value: T) {

    /** The value, or `default` when absent: JavaScript's `x || default`
        for values whose present form is always truthy. */
    function GetOr(default: T): T {
      match this
      case Some(v) => v
      case None => default
    }
  }

  /** The outcome of evaluating a JavaScript expression that may throw.
      The only exception the modelled code can raise is the `TypeError`
      of reading a property (`.role`) of an undefined user. */
  datatype Outcome<+T> = Value(value: T) | TypeError
}
