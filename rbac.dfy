/** The role gates of app/middleware/rbac.py and app/api/v1/endpoints/stock_movements.py. */
module Rbac {
  import opened Enums
  import opened Errors
  import opened Catalog

  /** `require_role(roles)`: the user passes unchanged when their role is listed, else 403. */
  function RequireRole(user: User, roles: seq<Role>): (r: Result<User>)
    ensures r.Success? <==> user.role in roles
    ensures r.Success? ==> r.value == user
    ensures r.Failure? ==> r.error == Forbidden("Insufficient permissions")
  {
    if user.role in roles then Success(user) else Failure(Forbidden("Insufficient permissions"))
  }

  /** `require_manager`, the gate on the four stock writes: ADMIN and MANAGER pass, else 403. */
  function RequireManager(user: User): (r: Result<User>)
    ensures r.Success? <==> IsManagerRole(user.role)
    ensures r.Success? ==> r.value == user
    ensures r.Failure? ==> r.error == Forbidden("Managers and admins only.")
  {
    if IsManagerRole(user.role) then Success(user) else Failure(Forbidden("Managers and admins only."))
  }

  /** The manager gate admits exactly the users that `require_role([ADMIN, MANAGER])` admits. */
  lemma RequireManagerIsRequireRole(user: User)
    ensures RequireManager(user).Success? <==> RequireRole(user, [ADMIN, MANAGER]).Success?
  {
  }

  /** Plain membership, no hierarchy: an empty list rejects every user, even an ADMIN. */
  lemma EmptyListRejectsEveryone(user: User)
    ensures RequireRole(user, []).Failure?
  {
  }

  /** The decision depends on the role alone, not on the user's id, org or e-mail. */
  lemma DecisionDependsOnlyOnRole(u: User, v: User, roles: seq<Role>)
    requires u.role == v.role
    ensures RequireRole(u, roles).Success? == RequireRole(v, roles).Success?
  {
  }
}
