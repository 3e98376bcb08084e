/** Small failure-carrying datatypes shared by the rest of the model. */
module Outcomes {

  /** A value that may be absent: a null target, an undeclared specialisation. */
  datatype Option<+T> = None | Some(value: T)

  /** The outcome of an operation that can be rejected: at compile time (an
      overload that is not viable, a failed `static_assert`) or at run time
      (a copy constructor that throws). */
  datatype Result<+T, +E> = Ok(value: T) | Err(error: E)
}
