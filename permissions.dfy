/**
 * The four user roles and the `ROLE_PERMISSIONS` table of middleware/auth.js:
 * a fixed map from role to the capabilities a request carries once authenticated.
 */
module Permissions {
  import opened JsValues

  /** The `user_role` enumeration of the users table. */
  datatype Role = Admin | Manager | Chef | LineCook

  function RoleName(r: Role): string
  {
    match r
    case Admin => "admin"
    case Manager => "manager"
    case Chef => "chef"
    case LineCook => "line_cook"
  }

  /** The role a request-body string names, if it names one. */
  function ParseRole(s: string): (r: Option<Role>)
    ensures r.Some? ==> RoleName(r.value) == s
    ensures r.None? ==> forall role: Role :: RoleName(role) != s
  {
    if s == "admin" then Some(Admin)
    else if s == "manager" then Some(Manager)
    else if s == "chef" then Some(Chef)
    else if s == "line_cook" then Some(LineCook)
    else None
  }

  lemma ParseRoleName(r: Role)
    ensures ParseRole(RoleName(r)) == Some(r)
  {
  }

  /**
   * A role's entry of the table. A key the entry does not list reads as
   * `undefined`, which every handler treats as false.
   */
  datatype Capabilities = Capabilities(
    canManageUsers: bool,
    canManageRecipes: bool,
    canDeleteRecipes: bool,
    canViewAll: bool,
    canViewRecipes: bool)

  /** `ROLE_PERMISSIONS[role]` */
  function RolePermissions(role: Role): (p: Capabilities)
    ensures p.canManageUsers <==> role == Admin
    ensures p.canDeleteRecipes <==> role == Admin || role == Manager
    ensures p.canManageRecipes <==> role != LineCook
    ensures p.canViewAll <==> role != LineCook
    ensures p.canViewRecipes <==> role == LineCook
  {
    match role
    case Admin => Capabilities(true, true, true, true, false)
    case Manager => Capabilities(false, true, true, true, false)
    case Chef => Capabilities(false, true, false, true, false)
    case LineCook => Capabilities(false, false, false, false, true)
  }

  /** `p` grants every one of the four staff capabilities that `q` grants. */
  predicate Covers(p: Capabilities, q: Capabilities)
  {
    && (q.canManageUsers ==> p.canManageUsers)
    && (q.canManageRecipes ==> p.canManageRecipes)
    && (q.canDeleteRecipes ==> p.canDeleteRecipes)
    && (q.canViewAll ==> p.canViewAll)
  }

  /** admin covers manager and manager covers chef, each strictly. */
  lemma RoleHierarchy()
    ensures Covers(RolePermissions(Admin), RolePermissions(Manager))
    ensures Covers(RolePermissions(Manager), RolePermissions(Chef))
    ensures !Covers(RolePermissions(Chef), RolePermissions(Manager))
    ensures !Covers(RolePermissions(Manager), RolePermissions(Admin))
  {
  }
}
