/** Outcomes shared by the whole model.

    The original program has no error returns: integer division by zero,
    out-of-range indexing, a wrapped-around allocation size and a
    floating-point division by zero are crashes, undefined behaviour or
    silent NaN/Infinity. The model names each such outcome, so that every
    operation is total and its contract says exactly when it goes wrong. */
module Faults {

  /** Why an operation of the original program has no meaningful result. */
  datatype Fault =
    | DivisionByZero   // integer division or remainder by zero (a crash)
    | SizeUnderflow    // `size_t` subtraction wrapped around, allocation fails
    | OutOfRange       // an element outside the buffer is read or written
    | NonFinite        // a floating-point result is NaN or Infinity

  datatype Result<+T> = Ok(value: T) | Err(fault: Fault)

  datatype Option<+T> = None | Some(value: T)
}
