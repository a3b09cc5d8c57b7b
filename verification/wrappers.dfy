/** A value that may be missing. The relay's decoding steps chain it with `:-`, so the
    first missing piece (a raised error in the program) ends the chain. */
module Wrappers {

  datatype Option<+T> = None | Some(value: T) {

    /** A missing value aborts the enclosing `:-` chain. */
    predicate IsFailure() {
      None?
    }

    /** Converts a None to an Option of another value type. */
    function PropagateFailure<U>(): Option<U>
      requires None?
    {
      None
    }

    /** The present value that `:-` hands on. */
    function Extract(): T
      requires Some?
    {
      value
    }
  }
}
