// How an asynchronous wait on a timer completes.
module Waits {

  /** Its time came, or it was cancelled before that. */
  datatype Code = Success | Aborted
}
