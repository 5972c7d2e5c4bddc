/** Values shared by every page model: optional values, and the two ways a page
    interaction can end without success. */
module Outcomes {

  /** A value that may be missing; for page texts, None stands for `null`. */
  datatype Option<T> = None | Some(value: T) {
    function GetOr(default: T): T {
      match this
      case Some(v) => v
      case None => default
    }
  }

  /** Why a page interaction did not succeed: a required element never appeared
      within its bound, or an observed value did not match what was expected. */
  datatype Failure = Timeout | AssertionFailed

  /** The result of a read from the page. */
  datatype Result<T> = Ok(value: T) | Err(failure: Failure)

  /** The outcome of a verification helper (a sequence of `expect` calls). */
  datatype Check = Pass | Fail(failure: Failure)
}
