/** The ways a decode of a scenario file can stop, and the result type that
    carries them. Any error aborts the whole decode. */
module Results {

  datatype Error =
      /** A string or integer field starting at `at` runs past the end of the
          data. (Python's `file.read` returns fewer bytes there and the
          decoder carries on with zeros; this model stops instead.) */
    | ShortRead(at: nat)
      /** Fewer than 80 bytes: `struct.unpack` of the file header raises. */
    | HeaderTooShort
      /** Fewer than 8 bytes at a section offset: `struct.unpack` of the
          section header raises. */
    | SectionHeaderTooShort(offset: nat)

  datatype Result<+T> = Ok(value: T) | Err(error: Error) {
    predicate IsFailure() {
      Err?
    }

    function PropagateFailure<U>(): Result<U>
      requires Err?
    {
      Err(error)
    }

    function Extract(): T
      requires Ok?
    {
      value
    }
  }

  /** Drops the position from a decoded `(value, next position)` pair. */
  function ValueOf<T>(r: Result<(T, nat)>): Result<T> {
    match r
    case Ok(p) => Ok(p.0)
    case Err(e) => Err(e)
  }
}
