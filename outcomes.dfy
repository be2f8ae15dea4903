/** Optional values and the two exceptions the engine can throw. */
module Outcomes {

  datatype Option<T> = None | Some(value: T)

  /** The exceptions the core raises: a property read on a missing object, and
      the explicit 'unfound new stage.' error of nextStage. */
  datatype Error = TypeError | UnfoundStage

  /** The result of an operation that may throw. */
  datatype Outcome<T> = Ok(value: T) | Thrown(error: Error)
}
