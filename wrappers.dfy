/** Failure-carrying datatypes shared by every module of the model. */
module Wrappers {

  datatype Option<+T> = None | Some(value: T)

  /** Rust's `Result<T, E>`. */
  datatype Result<+T, +E> = Ok(value: T) | Err(error: E)

  /** What a single SQL statement did: the database is outside the model, so
      callers pass in whether the statement succeeded. */
  datatype DbOutcome = Succeeded | Failed

  /** The opaque `sqlx::Error` of a failed statement. */
  datatype DbFailure = SqlxError
}

/** The HTTP status codes the handlers return. */
module Http {

  type StatusCode = int

  const OK: StatusCode := 200
  const SEE_OTHER: StatusCode := 303
  const UNAUTHORIZED: StatusCode := 401
  const INTERNAL_SERVER_ERROR: StatusCode := 500
}
