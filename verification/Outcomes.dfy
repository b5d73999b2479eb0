/** Values that may be absent, and the ways a request of the Auth service can end. */
module Outcomes {

  datatype Option<+T> = None | Some(value: T)

  /** The exceptions the Auth services raise. `Storage` is a failed commit. */
  datatype Error =
    | InvalidCredentials
    | Forbidden
    | BlockedUser
    | InactiveUser
    | InvalidToken
    | RevokedToken
    | ExpiredToken
    | UsedToken
    | UserNotFound
    | DuplicateEmail
    | EmailAlreadyVerified
    | PasswordReuse
    | RecordNotFound
    | AdminTarget
    | NotConfirmed
    | NoChange
    | UnknownField
    | Storage
}
