/** Failure-carrying datatypes shared by the whole model.

    The bot is written in a language where every failure is an exception; the
    model turns each exception the engine can raise into a `Fault` value
    carried by `Result`, named after the exception class that is raised. */
module Wrappers {

  datatype Option<+T> = None | Some(value: T)

  /** The exception classes the modelled code can raise. */
  datatype Fault =
    | ValueError      // a string that is not an integer or not a type tag
    | IndexError      // a positional parameter that is not there
    | AttributeError  // an attribute read on an absent object
    | NotFound        // a platform lookup (member fetch) that fails
    | RecursionError  // the interpreter's recursion budget is exhausted
    | OverflowError   // a duration or date beyond what the interpreter represents

  datatype Result<+T> = Ok(value: T) | Err(fault: Fault) {
    predicate IsFailure() {
      Err?
    }

    function PropagateFailure<U>(): Result<U>
      requires Err?
    {
      Err(fault)
    }

    function Extract(): T
      requires Ok?
    {
      value
    }
  }
}
