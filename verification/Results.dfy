/** Failure-compatible results standing for the Python exceptions the source raises. */
module Results {

  /** The exception classes that the modelled code raises. */
  datatype Error =
    | StructError       // struct.error: a value out of range, or too few bytes
    | IndexError        // bytes index out of range
    | ValueError        // an enum, table or size lookup that fails
    | UnicodeError      // bytes that are not UTF-8
    | RuntimeError      // "Connection closed", "Duplicate JDWP packet ID", ...
    | IncompleteRead    // StreamReader.readexactly hit the end of the stream
    | JdwpException     // the VM replied with an error code
    | OutsideModel      // not an exception: a registered command whose class is not modelled

  datatype Option<+T> = None | Some(value: T)

  datatype Result<+T> = Ok(value: T) | Err(error: Error) {
    predicate IsFailure() { Err? }

    function PropagateFailure<U>(): Result<U>
      requires Err?
    {
      Err(error)
    }

    function Extract(): T
      requires Ok?
    {
      value
    }
  }

  /** The result of a call that returns nothing but may raise. */
  datatype Outcome = Pass | Fail(error: Error) {
    predicate IsFailure() { Fail? }

    function PropagateFailure(): Outcome
      requires Fail?
    {
      this
    }
  }
}
