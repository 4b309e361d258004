/** Values that may be absent, and operations that may fail. */
module Results {
  datatype Option<+T> = None | Some(value: T)

  datatype Result<+T, +E> = Success(value: T) | Failure(error: E) {
    predicate IsFailure() {
      Failure?
    }

    function PropagateFailure<U>(): Result<U, E>
      requires Failure?
    {
      Failure(error)
    }

    function Extract(): T
      requires Success?
    {
      value
    }
  }
}

/** How reading a request body may end: regularly with EOF, or with an error. */
module BodyErrors {
  datatype ReadError = EOF | UnexpectedEOF | ConnectionLost | InvalidChunkSize | SliceOutOfRange | PayloadHashMismatch
}
