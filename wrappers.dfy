/** Optional values and outcomes of calls into the hosted backend. */
module Wrappers {

  /** A value that may be absent (`undefined` / `null` in the application). */
  datatype Option<+T> = None | Some(value: T)

  /** The outcome of a backend call: the returned data, or a thrown error whose content the model ignores. */
  datatype Outcome<+T> = Success(value: T) | Failure
}
