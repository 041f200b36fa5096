/**
  Request outcomes shared by the middleware and the controllers: an Option for
  JavaScript's `undefined`/`null`, the truthiness of optional strings, 0/1 counting, and the
  classified responses the handlers send.
 */
module Outcomes {

  datatype Option<+T> = None | Some(value: T)

  /** JavaScript truthiness of an optional string: `undefined`, `null` and `''` are falsy. */
  predicate Truthy(s: Option<string>) {
    s.Some? && s.value != ""
  }

  /** `s || fallback` for an optional string. */
  function OrElse(s: Option<string>, fallback: string): (r: string)
    ensures Truthy(s) ==> r == s.value
    ensures !Truthy(s) ==> r == fallback
    // The result is empty only when both the value and the fallback are.
    ensures r == "" <==> !Truthy(s) && fallback == ""
  {
    if Truthy(s) then s.value else fallback
  }

  /** `$cond: [b, 1, 0]` in an aggregation sum. */
  function Count(b: bool): nat {
    if b then 1 else 0
  }

  /** Why a request was not authenticated (all of these are HTTP 401). */
  datatype AuthError =
    | MissingToken            // no header, or not "Bearer ..."
    | TokenExpired            // verifier code auth/id-token-expired
    | TokenRevoked            // verifier code auth/id-token-revoked
    | InvalidToken            // any other exception while authenticating
    | AuthenticationRequired  // a gate ran without an authenticated user

  /** Why an authenticated request was refused (all of these are HTTP 403). */
  datatype Denial = Deactivated | RoleRequired | PermissionRequired | NotOwner

  /** Why a request was malformed (all of these are HTTP 400). */
  datatype Problem = MissingFields | AssigneeNotFound | NoValidUpdates | InvalidRole | SelfTarget

  datatype Response =
    | Ok
    | Created
    | Unauthorized(reason: AuthError)
    | Forbidden(denial: Denial)
    | BadRequest(problem: Problem)
    | NotFound
    | ServerError

  /** The HTTP status code each outcome is sent with. */
  function StatusCode(r: Response): int {
    match r
    case Ok => 200
    case Created => 201
    case Unauthorized(_) => 401
    case Forbidden(_) => 403
    case BadRequest(_) => 400
    case NotFound => 404
    case ServerError => 500
  }
}
