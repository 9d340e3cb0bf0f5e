/** Failure-compatible wrappers shared by the whole model, and the taxonomy of
    the ways one request of the quality-control service can abort. */
module Results {

  datatype Option<+T> = None | Some(value: T)

  /** Every exception the core of the service can raise. Each one aborts the
      whole request: the service never returns a partial report. */
  datatype Failure =
    /** A header line with a single token: `sLine[1]` raises IndexError. */
    | HeaderWithoutName(line: string)
    /** A reading line with a single token under a supported sensor. */
    | ReadingWithoutValue(line: string)
    /** `float(...)` refused a reading or a reference value. */
    | NotANumber(text: string)
    /** The reference line does not split into exactly three fields. */
    | ReferenceFieldCount(fields: nat)
    /** The reference line's first field is not `reference`. */
    | ReferenceNotValid(tag: string)
    /** `statistics.mean` or `statistics.stdev` was given too few readings. */
    | TooFewReadings(sensor: string, count: nat)

  datatype Result<+T> = Ok(value: T) | Err(error: Failure) {

    predicate IsFailure() {
      Err?
    }

    function PropagateFailure<U>(): Result<U>
      requires Err?
    {
      Err(error)
    }

    function Extract(): T
      requires Ok?
    {
      value
    }
  }
}
