/** `Option` and `Result`, the plain value wrappers the pipeline modules share. */
module Wrappers {

  /** A value that may be absent: Ruby's `nil`, or a parse that raised and was rescued. */
  datatype Option<+T> = None | Some(value: T) {
    /** The wrapped value, or `default` when there is none. */
    function GetOr(default: T): T {
      match this
      case Some(v) => v
      case None => default
    }
  }

  /** The outcome of a stage that can abort the run. */
  datatype Result<+T, +E> = Success(value: T) | Failure(error: E)
}
