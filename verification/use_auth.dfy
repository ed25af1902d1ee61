/** The client-side authorization hook: the flags derived from the session
    status, `hasRole` and `can` with its permissions table. */
module UseAuth {
  import opened Wrappers

  type Role = string

  /** The `status` the session provider reports. */
  datatype Status = Authenticated | Loading | Unauthenticated

  datatype User = User(role: Role)

  /** What the hook reads from the session provider: the status and
      `session?.user` (absent when there is no session or no user in it). */
  datatype SessionState = SessionState(status: Status, user: Option<User>)

  predicate IsAuthenticated(s: SessionState) { s.status == Authenticated }
  predicate IsLoading(s: SessionState) { s.status == Loading }

  datatype AuthFlags = AuthFlags(isAuthenticated: bool, isLoading: bool)

  /** `isAuthenticated` and `isLoading`, two equalities on one status: they
      are never both true, and both are false exactly when unauthenticated. */
  function Flags(s: SessionState): (f: AuthFlags)
    ensures !(f.isAuthenticated && f.isLoading)
    ensures !f.isAuthenticated && !f.isLoading <==> s.status == Unauthenticated
  {
    AuthFlags(IsAuthenticated(s), IsLoading(s))
  }

  /** The argument of `hasRole`: one role, or an array of roles. */
  datatype RoleQuery = OneRole(role: Role) | AnyOf(roles: seq<Role>)

  /** `hasRole(role)`. */
  function HasRole(s: SessionState, q: RoleQuery): bool {
    if !IsAuthenticated(s) || s.user.None? then false
    else match q
      case AnyOf(roles) => s.user.value.role in roles
      case OneRole(r) => s.user.value.role == r
  }

  const Admin: Role := "admin"

  /** The permissions table of `can`. */
  const Permissions: map<string, seq<Role>> := map[
    "manage:establishments" := ["admin", "establishment_owner"],
    "view:establishments" := ["admin", "establishment_owner", "establishment_staff"],
    "manage:menus" := ["admin", "establishment_owner", "establishment_staff"],
    "view:menus" := ["admin", "establishment_owner", "establishment_staff", "consumer"]
  ]

  /** `permissions[action] || []`. */
  function AllowedRoles(action: string): seq<Role> {
    if action in Permissions then Permissions[action] else []
  }

  /** `can(action)`. An authenticated session without a user makes
      `user.role` throw. */
  function Can(s: SessionState, action: string): Outcome<bool> {
    if !IsAuthenticated(s) then Value(false)
    else if s.user.None? then TypeError
    else if s.user.value.role == Admin then Value(true)
    else Value(s.user.value.role in AllowedRoles(action))
  }

  /** A signed-in session carrying `role`. */
  function SignedIn(role: Role): SessionState {
    SessionState(Authenticated, Some(User(role)))
  }

  // ---------------------------------------------------------------------
  // Properties
  // ---------------------------------------------------------------------

  /** `hasRole` is false without authentication or without a user; an
      array asks for membership and a single role for equality, so a role
      and the one-element array holding it are the same question. */
  lemma HasRoleMeaning(s: SessionState, q: RoleQuery, r: Role)
    ensures !IsAuthenticated(s) || s.user.None? ==> !HasRole(s, q)
    ensures HasRole(s, OneRole(r)) == HasRole(s, AnyOf([r]))
    ensures IsAuthenticated(s) && s.user.Some? && q.AnyOf? ==>
              (HasRole(s, q) <==> s.user.value.role in q.roles)
  {
  }

  /** `hasRole` has no admin bypass. */
  lemma HasRoleNoAdminBypass()
    ensures !HasRole(SignedIn(Admin), OneRole("establishment_owner"))
  {
  }

  /** `can` is false for every action without authentication. */
  lemma CanFalseWhenSignedOut(s: SessionState, action: string)
    requires !IsAuthenticated(s)
    ensures Can(s, action) == Value(false)
  {
  }

  /** Authenticated without a user object: reading `user.role` throws. */
  lemma CanWithoutUserThrows(action: string)
    ensures Can(SessionState(Authenticated, None), action) == TypeError
  {
  }

  /** An authenticated admin can do everything, including actions the table
      does not list. */
  lemma CanAdminEverything(action: string)
    ensures Can(SignedIn(Admin), action) == Value(true)
  {
  }

  /** For a non-admin, `can` is membership in the action's list, which is
      empty for an unknown action; it agrees with `hasRole` on that list. */
  lemma CanNonAdmin(role: Role, action: string)
    requires role != Admin
    ensures Can(SignedIn(role), action) == Value(role in AllowedRoles(action))
    ensures Can(SignedIn(role), action) == Value(HasRole(SignedIn(role), AnyOf(AllowedRoles(action))))
    ensures action !in Permissions ==> Can(SignedIn(role), action) == Value(false)
  {
  }

  /** The table is nested: managing implies viewing. */
  lemma PermissionsNested(role: Role)
    ensures role in AllowedRoles("manage:establishments") ==> role in AllowedRoles("view:establishments")
    ensures role in AllowedRoles("manage:menus") ==> role in AllowedRoles("view:menus")
  {
  }

  /** Hence every user who can manage a kind of entity can view it. */
  lemma {:induction false} CanManageImpliesCanView(s: SessionState)
    ensures Can(s, "manage:establishments") == Value(true) ==> Can(s, "view:establishments") == Value(true)
    ensures Can(s, "manage:menus") == Value(true) ==> Can(s, "view:menus") == Value(true)
  {
    if IsAuthenticated(s) && s.user.Some? {
      PermissionsNested(s.user.value.role);
    }
  }
}
