/** The two role policies: plain list membership, and the override rule for admins and bankers. */
module Permission {
  /** The roles a token carries; any other role string is `Custom`. */
  datatype Role = Admin | Banker | Depositor | Custom(name: string)

  /** `HasPermission`: the role is one of the listed roles. */
  function HasPermission(role: Role, roles: seq<Role>): (r: bool)
    ensures r <==> role in roles
  {
    if |roles| == 0 then false
    else if roles[0] == role then true
    else HasPermission(role, roles[1..])
  }

  /**
   * `CanOverridePermission`: an admin always may act on other users' data; a
   * banker only when bankers are among the listed roles; nobody else.
   */
  function CanOverridePermission(role: Role, roles: seq<Role>): (r: bool)
    ensures role == Admin ==> r
    ensures role == Banker ==> (r <==> Banker in roles)
    ensures role != Admin && role != Banker ==> !r
  {
    if role == Admin then true
    else if role == Banker then HasPermission(Banker, roles)
    else false
  }

  /** An empty list grants nothing, and only the admin overrides it. */
  lemma EmptyListDenies(role: Role)
    ensures !HasPermission(role, [])
    ensures CanOverridePermission(role, []) <==> role == Admin
  {
  }

  /** Whoever may override is an admin or is listed: overriding never exceeds the role gate. */
  lemma OverrideWithinGate(role: Role, roles: seq<Role>)
    ensures CanOverridePermission(role, roles) ==> role == Admin || HasPermission(role, roles)
    ensures role == Banker ==> (CanOverridePermission(role, roles) <==> HasPermission(role, roles))
  {
  }

  /** Listing more roles never takes a permission or an override away. */
  lemma PoliciesMonotone(role: Role, roles: seq<Role>, more: seq<Role>)
    ensures HasPermission(role, roles) ==> HasPermission(role, roles + more)
    ensures HasPermission(role, more) ==> HasPermission(role, roles + more)
    ensures CanOverridePermission(role, roles) ==> CanOverridePermission(role, roles + more)
  {
  }
}
