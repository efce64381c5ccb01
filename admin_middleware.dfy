/** The role gate in front of the admin routes
    (backend/src/middleware/adminMiddleware.ts). The caller identity is what
    the authentication middleware attached to the request, or nothing. */
module AdminMiddleware {
  import opened Wrappers

  /** `req.user`: the token's user id and e-mail and the role read from the
      user's row. */
  datatype AuthUser = AuthUser(id: string, email: string, role: string)

  /** Either the request is passed on (`next()`), or it is answered with an
      error status and message. */
  datatype GateOutcome = Next | Denied(status: nat, error: string, debug: Option<Debug>)

  /** The `debug` body of a 403 reply: the caller's effective role and the
      route's allowed roles, both sent back to the client. */
  datatype Debug = Debug(userRole: string, allowedRoles: seq<string>)

  /** The roles with admin access when no list is given. */
  const ADMIN_ROLES: seq<string> := ["ADMIN", "OPS", "SUPPORT"]

  const ADMIN_ONLY: seq<string> := ["ADMIN"]
  const OPS: seq<string> := ["ADMIN", "OPS"]
  const SUPPORT: seq<string> := ["ADMIN", "OPS", "SUPPORT"]

  /** `req.user.role || 'USER'`: an empty role counts as USER. */
  function EffectiveRole(role: string): (r: string)
    ensures r != ""
    ensures role != "" ==> r == role
    ensures role == "" ==> r == "USER"
  {
    if role == "" then "USER" else role
  }

  /** `adminMiddleware(allowedRoles)` applied to a request. No caller: 401.
      A caller whose effective role is not in the list (the default list when
      none is given): 403, with that role and that list in the reply body.
      Otherwise the request goes on. */
  function Gate(allowedRoles: Option<seq<string>>, user: Option<AuthUser>): (g: GateOutcome)
    ensures user.None? ==> g == Denied(401, "Authentication required", None)
    ensures g.Next? <==> user.Some? && EffectiveRole(user.value.role) in allowedRoles.GetOr(ADMIN_ROLES)
    ensures user.Some? && !g.Next? ==>
      g == Denied(403, "Access denied. Admin privileges required.",
                  Some(Debug(EffectiveRole(user.value.role), allowedRoles.GetOr(ADMIN_ROLES))))
  {
    if user.None? then Denied(401, "Authentication required", None)
    else
      var roles := allowedRoles.GetOr(ADMIN_ROLES);
      if EffectiveRole(user.value.role) !in roles then
        Denied(403, "Access denied. Admin privileges required.", Some(Debug(EffectiveRole(user.value.role), roles)))
      else Next
  }

  /** `adminOnlyMiddleware`, `opsMiddleware` and `supportMiddleware`. */
  predicate AdminOnly(user: Option<AuthUser>) { Gate(Some(ADMIN_ONLY), user).Next? }
  predicate Ops(user: Option<AuthUser>) { Gate(Some(OPS), user).Next? }
  predicate Support(user: Option<AuthUser>) { Gate(Some(SUPPORT), user).Next? }

  /** The presets are nested: whoever passes a stricter gate passes the
      looser ones; the default list is the support preset; and each preset
      admits exactly its named roles. */
  lemma PresetsNested(user: Option<AuthUser>)
    ensures AdminOnly(user) ==> Ops(user)
    ensures Ops(user) ==> Support(user)
    ensures Gate(None, user) == Gate(Some(SUPPORT), user)
    ensures AdminOnly(user) <==> user.Some? && user.value.role == "ADMIN"
    ensures Ops(user) <==> user.Some? && user.value.role in {"ADMIN", "OPS"}
    ensures Support(user) <==> user.Some? && user.value.role in {"ADMIN", "OPS", "SUPPORT"}
  {
  }

  /** An ordinary user, or one whose role is empty, never passes any preset
      or the default list, and gets 403 rather than 401; the reply tells it
      that its role reads as USER and which roles the route admits. */
  lemma UserRoleExcluded(u: AuthUser, allowedRoles: Option<seq<string>>)
    requires u.role == "USER" || u.role == ""
    requires allowedRoles in {None, Some(ADMIN_ONLY), Some(OPS), Some(SUPPORT)}
    ensures Gate(allowedRoles, Some(u))
         == Denied(403, "Access denied. Admin privileges required.", Some(Debug("USER", allowedRoles.GetOr(ADMIN_ROLES))))
  {
  }
}
