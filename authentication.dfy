/** The interface of `crate::authentication`, whose code is not part of this
    model: the credential type and the outcomes of `validate_credentials`. */
module Authentication {

  type UserId = nat

  /** `Credentials { username, password }`; the password is a `Secret<String>`. */
  datatype Credentials = Credentials(username: string, password: string)

  /** What `validate_credentials` returns: the user's id, or one of the two
      variants of `AuthError` with the error it wraps. */
  datatype AuthOutcome =
    | Authenticated(userId: UserId)
    | InvalidCredentials(cause: string)
    | UnexpectedError(cause: string)
}
