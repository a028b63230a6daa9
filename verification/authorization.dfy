/** The route dependencies that read the user the middleware stored and
    check its role. */
module Authorization {
  import opened Wrappers
  import Middlewares

  datatype HttpError = HttpError(status: int, detail: string)

  /** `get_current_user`: the stored claims, or 401 when none were stored. */
  function GetCurrentUser(stateUser: Option<Middlewares.Claims>): (r: Result<Middlewares.Claims, HttpError>)
    ensures r.Ok? <==> stateUser.Some?
    ensures r.Ok? ==> r.value == stateUser.value
    ensures r.Err? ==> r.error == HttpError(401, "Not authenticated")
  {
    match stateUser
    case None => Err(HttpError(401, "Not authenticated"))
    case Some(user) => Ok(user)
  }

  /** The checker built by `require_role(*roles)`, run after
      `get_current_user`. */
  function RequireRole(roles: seq<string>, stateUser: Option<Middlewares.Claims>): Result<Middlewares.Claims, HttpError>
  {
    match GetCurrentUser(stateUser)
    case Err(e) => Err(e)
    case Ok(user) =>
      if user.role !in roles then Err(HttpError(403, "Insufficient rights")) else Ok(user)
  }

  /** A user passes exactly when one is stored and its role is listed; a
      missing user is a 401 before any role is looked at, a wrong role a
      403. */
  lemma RequireRoleSpec(roles: seq<string>, stateUser: Option<Middlewares.Claims>)
    ensures var r := RequireRole(roles, stateUser);
      && (r.Ok? <==> stateUser.Some? && stateUser.value.role in roles)
      && (r.Ok? ==> r.value == stateUser.value)
      && (stateUser.None? ==> r == Err(HttpError(401, "Not authenticated")))
      && (stateUser.Some? && stateUser.value.role !in roles ==> r == Err(HttpError(403, "Insufficient rights")))
  {
  }

  /** `require_role()` with no roles turns everyone away, and listing more
      roles never turns away a user that fewer roles let in. */
  lemma RequireRoleMonotone(roles: seq<string>, more: seq<string>, stateUser: Option<Middlewares.Claims>)
    requires forall r :: r in roles ==> r in more
    ensures RequireRole([], stateUser).Err?
    ensures RequireRole(roles, stateUser).Ok? ==> RequireRole(more, stateUser) == RequireRole(roles, stateUser)
  {
  }
}
