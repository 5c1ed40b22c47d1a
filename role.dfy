/**
 * The role gate every route group sits behind: the request goes on only when the session
 * holds a user whose role is the one the route requires; otherwise it is answered with 403.
 */
module Role {
  import opened Wrappers
  import opened TimeLog

  /** `req.session`, which may hold a signed-in `user`. */
  datatype HttpSession = HttpSession(user: Option<Principal>)

  /** Either `next()` or the 403 answer. */
  datatype Outcome = Next | Forbidden(code: int, error: string)

  /** `checkRole(role)` applied to a request with session `session`. */
  function CheckRole(role: string, session: Option<HttpSession>): (out: Outcome)
    ensures out == Next <==> session.Some? && session.value.user.Some? && session.value.user.value.role == role
    ensures out != Next ==> out == Forbidden(403, "Forbidden. Insufficient permissions.")
  {
    if session.Some? && session.value.user.Some? && session.value.user.value.role == role then Next
    else Forbidden(403, "Forbidden. Insufficient permissions.")
  }

  /** No session passes two gates with different roles; in particular "admin" and "user". */
  lemma GatesDisjoint(session: Option<HttpSession>, r1: string, r2: string)
    requires r1 != r2
    ensures !(CheckRole(r1, session) == Next && CheckRole(r2, session) == Next)
  {
  }

  /**
   * Every timer route sits behind `checkRole('user')`, so a request that reaches a timer command
   * comes from a user-role session and the command's owner is always a `user_id`: the `admin_id`
   * branches of the timer controller are unreachable through the routes.
   */
  lemma UserGateGivesUserOwner(session: Option<HttpSession>)
    requires CheckRole("user", session) == Next
    ensures session.Some? && session.value.user.Some?
    ensures OwnerOf(session.value.user.value) == UserOwner(session.value.user.value.id)
  {
  }
}
