/** Small helper datatypes shared by the other modules. */
module Wrappers {

  /** Python's `Optional[T]`: a value or `None`. */
  datatype Option<+T> = None | Some(value: T)

  /**
   * A keyword argument of a Python function that has a default value:
   * either the caller left it out, or passed a value explicitly.
   */
  datatype Arg<+T> = Omitted | Passed(value: T) {
    /** The value the function body sees, given the parameter's default. */
    function Or(default: T): T {
      match this
      case Passed(v) => v
      case Omitted => default
    }
  }
}
