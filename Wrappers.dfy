/** Optional values and results, standing in for JavaScript's `undefined`/`null`
    and for the exceptions the backend catches. */
module Wrappers {

  datatype Option<+T> = None | Some(value: T)

  /** The outcome of a call into a collaborator that can throw (the generative
      text service, for one): either the value it produced or the failure. */
  datatype Result<+T, +E> = Success(value: T) | Failure(error: E)
}
