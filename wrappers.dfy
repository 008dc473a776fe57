/** Optional values and success-or-error results, used for Java nulls,
    JavaScript `undefined`, thrown exceptions and failed requests. */
module Wrappers {

  datatype Option<+T> = None | Some(value: T)

  datatype Result<+T, +E> = Ok(value: T) | Err(error: E)

  /** What a request to the backend can fail with; the transport is not modelled,
      only that the awaited promise rejected. */
  datatype RequestError = NetworkError | ServerError(status: int)
}
