/** Optional values, failure-compatible results, and the error conditions the
    services raise as exceptions. */
module Wrappers {

  /** A nullable value: `None` stands for Java's `null`. */
  datatype Option<+T> = None | Some(value: T) {

    predicate IsFailure() {
      None?
    }

    function PropagateFailure<U>(): Option<U>
      requires None?
    {
      None
    }

    function Extract(): T
      requires Some?
    {
      value
    }

    /** The wrapped value, or `default` for `None`. */
    function GetOr(default: T): T {
      match this
      case Some(v) => v
      case None => default
    }
  }

  /** The exceptions the modelled services throw. Each aborts the whole
      operation. No partial result escapes. */
  datatype Failure =
    | NotGsUri                      // the reference does not start with gs://
    | InvalidGsUri                  // empty bucket, empty object or no '/'
    | BlobNotFound                  // a referenced storage object is missing
    | NoChunks                      // merging audio of a meeting without chunks
    | DurationRequired(chunkSeq: int) // a DONE chunk without a positive duration
    | External(message: string)     // an exception from an external service

  /** The outcome of an operation that may throw. */
  datatype Result<+T> = Ok(value: T) | Err(error: Failure) {

    predicate IsFailure() {
      Err?
    }

    function PropagateFailure<U>(): Result<U>
      requires Err?
    {
      Err(error)
    }

    function Extract(): T
      requires Ok?
    {
      value
    }
  }
}
