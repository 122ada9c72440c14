/** Option and Result types shared by the whole model. */
module Wrappers {

  /** A value that may be missing: an absent JSON key, Python's `None`, JavaScript's `null`. */
  datatype Option<+T> = None | Some(value: T) {
    /** `dict.get(key, default)`: the value when present, the default otherwise. */
    function GetOr(default: T): T {
      match this
      case Some(v) => v
      case None => default
    }
  }

  /** The HTTP errors the backend handlers raise. */
  datatype HttpError = BadRequest | NotFound | ServerError {
    function Code(): int {
      match this
      case BadRequest => 400
      case NotFound => 404
      case ServerError => 500
    }
  }

  /** A handler's outcome: its response, or the HTTP error it raised. */
  datatype Result<+T> = Ok(value: T) | Err(error: HttpError)
}
