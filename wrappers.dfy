/** The Option type used for operations that can fail. */
module Wrappers {

  /** `None` stands for an operation of the preprocessor that raises an exception. */
  datatype Option<+T> = None | Some(value: T) {

    predicate IsFailure() {
      None?
    }

    function PropagateFailure<U>(): Option<U>
      requires None?
    {
      None
    }

    function Extract(): T
      requires Some?
    {
      value
    }
  }
}
