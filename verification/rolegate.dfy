/** The role gate `rolesAllowed(roles)`: middleware that lets a request
    through when the signed-in user's role is one of the configured roles. */
module RoleGate {
  import opened Http
  import opened Users

  /** Either the next handler runs, or the gate answers with an error. */
  datatype Decision = Next | Deny(error: Error)

  const Forbidden := Error(403, "You are not authorized to view this routes")

  /** The gate configured with `roles`, applied to the claims on `req.user`. */
  function RolesAllowed(roles: seq<Role>, user: Claims): (d: Decision)
    ensures d == Next <==> exists i :: 0 <= i < |roles| && roles[i] == user.role
    ensures d != Next ==> d == Deny(Forbidden)
  {
    if user.role in roles then Next else Deny(Forbidden)
  }

  /** A gate with no roles turns everyone away. */
  lemma EmptyGateDeniesAll(user: Claims)
    ensures RolesAllowed([], user) == Deny(Forbidden)
  {
  }

  /** Allowing more roles never turns an admitted request away. */
  lemma GateIsMonotone(roles: seq<Role>, more: seq<Role>, user: Claims)
    requires forall i :: 0 <= i < |roles| ==> roles[i] in more
    requires RolesAllowed(roles, user) == Next
    ensures RolesAllowed(more, user) == Next
  {
  }

  /** Only the role counts: two users with the same role get the same answer. */
  lemma GateSeesOnlyRole(roles: seq<Role>, a: Claims, b: Claims)
    requires a.role == b.role
    ensures RolesAllowed(roles, a) == RolesAllowed(roles, b)
  {
  }

  /** The administrator routes admit exactly administrators. */
  lemma AdminGate(user: Claims)
    ensures RolesAllowed([Admin], user) == Next <==> user.role == Admin
  {
  }
}
