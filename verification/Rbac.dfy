/**
 * Roles, permissions and their assignments: the service calls that change them, with their guards, and the
 * users whose cached permissions each call drops afterwards.
 */
module Rbac {
  import opened Basics
  import opened Schema

  type RoleId = nat
  type PermissionId = nat

  const SUPER_ADMIN := "Super Admin"
  const SYSTEM_ROLES: set<string> :=
    {"Candidate", "Recruiter", "Moderator", "Admin", "Super Admin", "Support Executive"}
  const ADMIN_TIER: set<string> := {"Admin", "Super Admin", "Moderator", "Support Executive"}

  datatype Db = Db(
    users: map<UserId, UserStatus>,
    roles: map<RoleId, string>,
    permissions: map<PermissionId, string>,
    rolePermissions: set<(RoleId, PermissionId)>,
    userRoles: set<(UserId, RoleId)>)

  /** Foreign keys point at rows, and role and permission names are unique. */
  ghost predicate WellFormed(db: Db)
  {
    && (forall rp :: rp in db.rolePermissions ==> rp.0 in db.roles && rp.1 in db.permissions)
    && (forall ur :: ur in db.userRoles ==> ur.0 in db.users && ur.1 in db.roles)
    && (forall r, r' :: r in db.roles && r' in db.roles && db.roles[r] == db.roles[r'] ==> r == r')
    && (forall p, p' :: p in db.permissions && p' in db.permissions && db.permissions[p] == db.permissions[p'] ==> p == p')
  }

  /** The join a cache load computes: the names of all permissions of all roles of a user. */
  function Effective(db: Db, u: UserId): set<string>
  {
    set ur, rp | ur in db.userRoles && rp in db.rolePermissions && ur.0 == u && ur.1 == rp.0 && rp.1 in db.permissions
      :: db.permissions[rp.1]
  }

  function RoleNames(db: Db, u: UserId): set<string>
  {
    set ur | ur in db.userRoles && ur.0 == u && ur.1 in db.roles :: db.roles[ur.1]
  }

  /** The users who hold a role of this name. */
  function Holders(db: Db, name: string): set<UserId>
  {
    set ur | ur in db.userRoles && ur.1 in db.roles && db.roles[ur.1] == name :: ur.0
  }

  function ActiveHolders(db: Db, name: string): set<UserId>
  {
    set u | u in Holders(db, name) && u in db.users && db.users[u].Active?
  }

  function RolesNamed(db: Db, name: string): set<RoleId>
  {
    set r | r in db.roles && db.roles[r] == name
  }

  function PermissionsNamed(db: Db, names: seq<string>): set<PermissionId>
  {
    set p | p in db.permissions && db.permissions[p] in names
  }

  datatype Call =
    | CreateRole(newRole: RoleId, name: string, permissionNames: seq<string>)
    | UpdateRole(role: RoleId, name: string)
    | DeleteRole(role: RoleId)
    | CreatePermission(newPermission: PermissionId, name: string)
    | UpdatePermission(permission: PermissionId, name: string)
    | DeletePermission(permission: PermissionId)
    | AssignPermissions(role: RoleId, ids: Option<seq<PermissionId>>, names: seq<string>)
    | AssignRoles(user: UserId, roleIds: seq<RoleId>, operatorRoles: set<string>)
    | RemoveAdminRole(user: UserId, name: string, operatorRoles: set<string>)
    | UpdateUserStatus(user: UserId, status: UserStatus, operatorRoles: set<string>)
    | DeleteUser(operator: UserId, user: UserId, operatorRoles: set<string>, stillReferenced: bool)
    | DeleteOwnAccount(user: UserId, passwordMatches: bool, ownsJobs: bool)

  datatype Error =
    | NotFound | NameTaken | SystemRole | RoleInUse | UnknownIds | DuplicateRow
    | NeedsSuperAdmin | LastSuperAdmin | LacksRole | OnlyRole | OwnAccount | SuperAdminAccount | StillReferenced
    | WrongPassword | OwnsJobs

  /** Whose cached permissions a successful call invalidates. */
  datatype Scope = Nobody | Everyone | Only(user: UserId)

  predicate Covers(scope: Scope, u: UserId)
  {
    scope.Everyone? || scope == Only(u)
  }

  function ScopeOf(call: Call): Scope
  {
    match call
    case CreateRole(_, _, _) => Nobody
    case CreatePermission(_, _) => Nobody
    case UpdateRole(_, _) => Everyone
    case DeleteRole(_) => Everyone
    case UpdatePermission(_, _) => Everyone
    case DeletePermission(_) => Everyone
    case AssignPermissions(_, _, _) => Everyone
    case AssignRoles(u, _, _) => Only(u)
    case RemoveAdminRole(u, _, _) => Only(u)
    case UpdateUserStatus(u, _, _) => Only(u)
    case DeleteUser(_, u, _, _) => Only(u)
    case DeleteOwnAccount(_, _, _) => Nobody
  }

  predicate FreshId(db: Db, call: Call)
  {
    && (call.CreateRole? ==> call.newRole !in db.roles)
    && (call.CreatePermission? ==> call.newPermission !in db.permissions)
  }

  // ------------------------------------------------------------------ the calls

  function AssignedPermissions(db: Db, call: Call): set<PermissionId>
    requires call.AssignPermissions?
  {
    match call.ids
    case Some(ids) => set p | p in ids
    case None => PermissionsNamed(db, call.names)
  }

  function AssignRolesOutcome(db: Db, u: UserId, roleIds: seq<RoleId>, operatorRoles: set<string>): Result<Db, Error>
  {
    if u !in db.users then Err(NotFound)
    else if exists r :: r in roleIds && r !in db.roles then Err(UnknownIds)
    else
      var had := u in Holders(db, SUPER_ADMIN);
      var willHave := exists r :: r in roleIds && db.roles[r] == SUPER_ADMIN;
      if had != willHave && SUPER_ADMIN !in operatorRoles then Err(NeedsSuperAdmin)
      else if had && !willHave && Holders(db, SUPER_ADMIN) - {u} == {} then Err(LastSuperAdmin)
      else if !NoRepeats(roleIds) then Err(DuplicateRow)
      else
        Ok(db.(userRoles := (set ur | ur in db.userRoles && ur.0 != u) + (set r | r in roleIds :: (u, r))))
  }

  function RemoveAdminRoleOutcome(db: Db, u: UserId, name: string, operatorRoles: set<string>): Result<Db, Error>
  {
    if SUPER_ADMIN !in operatorRoles then Err(NeedsSuperAdmin)
    else if u !in db.users then Err(NotFound)
    else if name !in RoleNames(db, u) then Err(LacksRole)
    else if RoleNames(db, u) == {name} then Err(OnlyRole)
    else if name == SUPER_ADMIN && Holders(db, SUPER_ADMIN) - {u} == {} then Err(LastSuperAdmin)
    else Ok(db.(userRoles := set ur | ur in db.userRoles && !(ur.0 == u && ur.1 in RolesNamed(db, name))))
  }

  function UpdateUserStatusOutcome(db: Db, u: UserId, status: UserStatus, operatorRoles: set<string>): Result<Db, Error>
  {
    if u !in db.users then Err(NotFound)
    else if RoleNames(db, u) * ADMIN_TIER != {} && SUPER_ADMIN !in operatorRoles then Err(NeedsSuperAdmin)
    else if SUPER_ADMIN in RoleNames(db, u) && !status.Active? && ActiveHolders(db, SUPER_ADMIN) - {u} == {} then
      Err(LastSuperAdmin)
    else Ok(db.(users := db.users[u := status]))
  }

  function DeleteUserOutcome(db: Db, operator: UserId, u: UserId, operatorRoles: set<string>, stillReferenced: bool)
    : Result<Db, Error>
  {
    if operator == u then Err(OwnAccount)
    else if u !in db.users then Err(NotFound)
    else if SUPER_ADMIN in RoleNames(db, u) then Err(SuperAdminAccount)
    else if RoleNames(db, u) * ADMIN_TIER != {} && SUPER_ADMIN !in operatorRoles then Err(NeedsSuperAdmin)
    else if stillReferenced then Err(StillReferenced)
    else Ok(WithoutUser(db, u))
  }

  /** The row of a user, with the role assignments that go with it. */
  function WithoutUser(db: Db, u: UserId): Db
  {
    db.(users := db.users - {u}, userRoles := set ur | ur in db.userRoles && ur.0 != u)
  }

  /** No role guard at all: any account, a Super Admin's included. */
  function DeleteOwnAccountOutcome(db: Db, u: UserId, passwordMatches: bool, ownsJobs: bool): Result<Db, Error>
  {
    if u !in db.users then Err(NotFound)
    else if !passwordMatches then Err(WrongPassword)
    else if ownsJobs then Err(OwnsJobs)
    else Ok(WithoutUser(db, u))
  }

  /** The tables after a call, or the error it throws, which leaves them as they were. */
  function Outcome(db: Db, call: Call): Result<Db, Error>
  {
    match call
    case CreateRole(r, name, names) =>
      if RolesNamed(db, name) != {} then Err(NameTaken)
      else
        Ok(db.(roles := db.roles[r := name],
               rolePermissions := db.rolePermissions + set p | p in PermissionsNamed(db, names) :: (r, p)))
    case UpdateRole(r, name) =>
      if r !in db.roles then Err(NotFound)
      else if RolesNamed(db, name) - {r} != {} then Err(NameTaken)
      else Ok(db.(roles := db.roles[r := name]))
    case DeleteRole(r) =>
      if r !in db.roles then Err(NotFound)
      else if db.roles[r] in SYSTEM_ROLES then Err(SystemRole)
      else if exists ur :: ur in db.userRoles && ur.1 == r then Err(RoleInUse)
      else Ok(db.(roles := db.roles - {r}, rolePermissions := set rp | rp in db.rolePermissions && rp.0 != r))
    case CreatePermission(p, name) =>
      if PermissionsNamed(db, [name]) != {} then Err(NameTaken)
      else Ok(db.(permissions := db.permissions[p := name]))
    case UpdatePermission(p, name) =>
      if p !in db.permissions then Err(NotFound)
      else if PermissionsNamed(db, [name]) - {p} != {} then Err(NameTaken)
      else Ok(db.(permissions := db.permissions[p := name]))
    case DeletePermission(p) =>
      if p !in db.permissions then Err(NotFound)
      else Ok(db.(permissions := db.permissions - {p}, rolePermissions := set rp | rp in db.rolePermissions && rp.1 != p))
    case AssignPermissions(r, ids, _) =>
      if r !in db.roles then Err(NotFound)
      else if !(AssignedPermissions(db, call) <= db.permissions.Keys) then Err(UnknownIds)
      else if ids.Some? && !NoRepeats(ids.value) then Err(DuplicateRow)
      else
        Ok(db.(rolePermissions := (set rp | rp in db.rolePermissions && rp.0 != r)
                                  + (set p | p in AssignedPermissions(db, call) :: (r, p))))
    case AssignRoles(u, roleIds, operatorRoles) => AssignRolesOutcome(db, u, roleIds, operatorRoles)
    case RemoveAdminRole(u, name, operatorRoles) => RemoveAdminRoleOutcome(db, u, name, operatorRoles)
    case UpdateUserStatus(u, status, operatorRoles) => UpdateUserStatusOutcome(db, u, status, operatorRoles)
    case DeleteUser(operator, u, operatorRoles, stillReferenced) =>
      DeleteUserOutcome(db, operator, u, operatorRoles, stillReferenced)
    case DeleteOwnAccount(u, passwordMatches, ownsJobs) => DeleteOwnAccountOutcome(db, u, passwordMatches, ownsJobs)
  }

  function After(db: Db, call: Call): Db
  {
    match Outcome(db, call)
    case Ok(after) => after
    case Err(_) => db
  }

  // ------------------------------------------------------------------ what every call keeps

  lemma KeepsWellFormed(db: Db, call: Call)
    requires WellFormed(db) && FreshId(db, call)
    ensures WellFormed(After(db, call))
  {
    if call.CreateRole? {
      RoleNameFree(db, call.name, call.newRole);
    } else if call.UpdateRole? {
      RoleNameFree(db, call.name, call.role);
    } else if call.CreatePermission? {
      PermissionNameFree(db, call.name, call.newPermission);
    } else if call.UpdatePermission? {
      PermissionNameFree(db, call.name, call.permission);
    }
  }

  lemma RoleNameFree(db: Db, name: string, r: RoleId)
    ensures RolesNamed(db, name) - {r} == {} <==> forall r' :: r' in db.roles && r' != r ==> db.roles[r'] != name
  {
    assert forall r' :: r' in RolesNamed(db, name) <==> r' in db.roles && db.roles[r'] == name;
    if RolesNamed(db, name) - {r} == {} {
      forall r' | r' in db.roles && r' != r
        ensures db.roles[r'] != name
      {
        assert r' !in RolesNamed(db, name) - {r};
      }
    }
  }

  lemma PermissionNameFree(db: Db, name: string, p: PermissionId)
    ensures PermissionsNamed(db, [name]) - {p} == {}
            <==> forall p' :: p' in db.permissions && p' != p ==> db.permissions[p'] != name
  {
    assert forall p' :: p' in PermissionsNamed(db, [name]) <==> p' in db.permissions && db.permissions[p'] == name;
    if PermissionsNamed(db, [name]) - {p} == {} {
      forall p' | p' in db.permissions && p' != p
        ensures db.permissions[p'] != name
      {
        assert p' !in PermissionsNamed(db, [name]) - {p};
      }
    }
  }

  /** Two databases that agree on the rows of a user's join give that user the same permissions. */
  lemma SameJoin(a: Db, b: Db, u: UserId)
    requires forall ur: (UserId, RoleId) :: ur.0 == u ==> (ur in a.userRoles <==> ur in b.userRoles)
    requires forall ur, rp: (RoleId, PermissionId) ::
               ur in a.userRoles && ur.0 == u && rp.0 == ur.1 ==> (rp in a.rolePermissions <==> rp in b.rolePermissions)
    requires forall rp :: rp in a.rolePermissions ==>
               rp.1 in a.permissions && rp.1 in b.permissions && a.permissions[rp.1] == b.permissions[rp.1]
    ensures Effective(a, u) == Effective(b, u)
  {
  }

  /** The user deletes the account they hold permissions with; nothing is invalidated. */
  predicate LeavesWithPermissions(db: Db, call: Call, u: UserId)
  {
    call.DeleteOwnAccount? && Outcome(db, call).Ok? && call.user == u && Effective(db, u) != {}
  }

  /**
   * A call changes the effective permissions of no one outside the scope it invalidates, except that a user
   * who deletes their own account loses theirs. For the two creating calls the scope is nobody: a role or
   * permission that did not exist has no holder.
   */
  lemma ChangesAreCovered(db: Db, call: Call, u: UserId)
    requires WellFormed(db) && FreshId(db, call) && !Covers(ScopeOf(call), u)
    ensures Effective(After(db, call), u) == Effective(db, u) <==> !LeavesWithPermissions(db, call, u)
    ensures LeavesWithPermissions(db, call, u) ==> Effective(After(db, call), u) == {}
  {
    if call.DeleteOwnAccount? && Outcome(db, call).Ok? && call.user == u {
      assert Effective(After(db, call), u) == {};
    } else {
      hide Effective;
      SameJoin(db, After(db, call), u);
    }
  }
}
