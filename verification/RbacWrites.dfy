/**
 * The role and permission calls taken apart: the guards, which read, and the writes, each one database call made
 * later on whatever the tables have become by then. The database itself knows foreign keys and unique names.
 */
module RbacWrites {
  import opened Basics
  import opened Schema
  import opened Rbac

  type OpId = nat

  /** One write; the two deletes and the two replacements take several rows along in the same database call. */
  datatype Write =
    | AddRole(role: RoleId, name: string)
    | Grant(role: RoleId, granted: set<PermissionId>)
    | NameRole(role: RoleId, name: string)
    | DropRole(role: RoleId)
    | AddPermission(permission: PermissionId, name: string)
    | NamePermission(permission: PermissionId, name: string)
    | DropPermission(permission: PermissionId)
    | SetGrants(role: RoleId, granted: set<PermissionId>)
    | SetRoles(user: UserId, roleIds: seq<RoleId>)
    | TakeRoles(user: UserId, taken: set<RoleId>)
    | SetStatus(user: UserId, status: UserStatus)
    | DropUser(user: UserId)

  /**
   * The call passes its guards on what it sees. They are those of `Outcome`, but for the permission ids of
   * `assignPermissionsToRole`, which nothing looks up before they are inserted.
   */
  predicate Passes(seen: Db, call: Call)
  {
    if call.AssignPermissions? then call.role in seen.roles && (call.ids.Some? ==> NoRepeats(call.ids.value))
    else Outcome(seen, call).Ok?
  }

  /** A call that passes and fails all the same has named an unknown permission. */
  lemma PassesExactly(db: Db, call: Call)
    ensures Passes(db, call)
            <==> Outcome(db, call).Ok?
                 || (call.AssignPermissions? && Outcome(db, call) == Err(UnknownIds)
                     && (call.ids.Some? ==> NoRepeats(call.ids.value)))
  {
  }

  /** The write a call decides on, given what it saw; `createRole` inserts its grants in a second one. */
  function WriteOf(seen: Db, call: Call): Write
  {
    match call
    case CreateRole(r, name, _) => AddRole(r, name)
    case UpdateRole(r, name) => NameRole(r, name)
    case DeleteRole(r) => DropRole(r)
    case CreatePermission(p, name) => AddPermission(p, name)
    case UpdatePermission(p, name) => NamePermission(p, name)
    case DeletePermission(p) => DropPermission(p)
    case AssignPermissions(r, _, _) => SetGrants(r, AssignedPermissions(seen, call))
    case AssignRoles(u, roleIds, _) => SetRoles(u, roleIds)
    case RemoveAdminRole(u, name, _) => TakeRoles(u, RolesNamed(seen, name))
    case UpdateUserStatus(u, status, _) => SetStatus(u, status)
    case DeleteUser(_, u, _, _) => DropUser(u)
    case DeleteOwnAccount(u, _, _) => DropUser(u)
  }

  /** The tables take the write: the row is there, and no foreign key or unique key is violated. */
  predicate Takes(db: Db, w: Write)
  {
    match w
    case AddRole(_, name) => RolesNamed(db, name) == {}
    case Grant(r, granted) =>
      && granted <= db.permissions.Keys && (granted != {} ==> r in db.roles)
      && forall p :: p in granted ==> (r, p) !in db.rolePermissions
    case NameRole(r, name) => r in db.roles && RolesNamed(db, name) - {r} == {}
    case DropRole(r) => r in db.roles
    case AddPermission(_, name) => PermissionsNamed(db, [name]) == {}
    case NamePermission(p, name) => p in db.permissions && PermissionsNamed(db, [name]) - {p} == {}
    case DropPermission(p) => p in db.permissions
    case SetGrants(r, granted) => granted <= db.permissions.Keys && (granted != {} ==> r in db.roles)
    case SetRoles(u, roleIds) =>
      (roleIds != [] ==> u in db.users) && (forall r :: r in roleIds ==> r in db.roles) && NoRepeats(roleIds)
    case TakeRoles(_, _) => true
    case SetStatus(u, _) => u in db.users
    case DropUser(u) => u in db.users
  }

  /** A row goes with the rows that refer to it; a write that is not taken changes nothing. */
  function Written(db: Db, w: Write): Db
  {
    if !Takes(db, w) then db
    else
      match w
      case AddRole(r, name) => db.(roles := db.roles[r := name])
      case Grant(r, granted) => db.(rolePermissions := db.rolePermissions + set p | p in granted :: (r, p))
      case NameRole(r, name) => db.(roles := db.roles[r := name])
      case DropRole(r) =>
        db.(roles := db.roles - {r}, rolePermissions := (set rp | rp in db.rolePermissions && rp.0 != r),
            userRoles := set ur | ur in db.userRoles && ur.1 != r)
      case AddPermission(p, name) => db.(permissions := db.permissions[p := name])
      case NamePermission(p, name) => db.(permissions := db.permissions[p := name])
      case DropPermission(p) =>
        db.(permissions := db.permissions - {p}, rolePermissions := set rp | rp in db.rolePermissions && rp.1 != p)
      case SetGrants(r, granted) =>
        db.(rolePermissions := (set rp | rp in db.rolePermissions && rp.0 != r) + (set p | p in granted :: (r, p)))
      case SetRoles(u, roleIds) =>
        db.(userRoles := (set ur | ur in db.userRoles && ur.0 != u) + (set r | r in roleIds :: (u, r)))
      case TakeRoles(u, taken) => db.(userRoles := set ur | ur in db.userRoles && !(ur.0 == u && ur.1 in taken))
      case SetStatus(u, status) => db.(users := db.users[u := status])
      case DropUser(u) => WithoutUser(db, u)
  }

  /** Generated ids are new. */
  predicate NewId(db: Db, w: Write)
  {
    && (w.AddRole? ==> w.role !in db.roles)
    && (w.AddPermission? ==> w.permission !in db.permissions)
  }

  lemma NotTaken(db: Db, w: Write)
    ensures !Takes(db, w) ==> Written(db, w) == db
  {
  }

  /** `createMany` inserts all the rows it is given or, if one of them cannot be, none. */
  lemma GrantsAllOrNothing(db: Db, r: RoleId, granted: set<PermissionId>)
    requires granted != {}
    ensures var after := Written(db, Grant(r, granted));
            if r in db.roles && forall p :: p in granted ==> p in db.permissions && (r, p) !in db.rolePermissions
            then forall q, p :: (q, p) in after.rolePermissions <==> (q, p) in db.rolePermissions || (q == r && p in granted)
            else after == db
  {
  }

  lemma WriteKeepsWellFormed(db: Db, w: Write)
    requires WellFormed(db) && NewId(db, w)
    ensures WellFormed(Written(db, w))
  {
    if w.AddRole? || w.NameRole? {
      RoleNameFree(db, w.name, w.role);
    } else if w.AddPermission? || w.NamePermission? {
      PermissionNameFree(db, w.name, w.permission);
    }
  }

  /** What a call that nothing interrupts writes: all of it, but for the grants of a new role. */
  lemma UninterruptedCall(db: Db, call: Call)
    requires WellFormed(db) && FreshId(db, call) && Outcome(db, call).Ok?
    ensures Passes(db, call) && NewId(db, WriteOf(db, call)) && Takes(db, WriteOf(db, call))
    ensures !call.CreateRole? ==> Written(db, WriteOf(db, call)) == After(db, call)
    ensures call.CreateRole? ==>
              var inserted := Written(db, WriteOf(db, call));
              Written(inserted, Grant(call.newRole, PermissionsNamed(inserted, call.permissionNames))) == After(db, call)
  {
    hide WellFormed;
    match call
    case CreateRole(r, name, names) => CreatedInTwoWrites(db, r, name, names);
    case DeleteRole(r) => UnassignedRole(db, r);
    case _ =>
  }

  lemma CreatedInTwoWrites(db: Db, r: RoleId, name: string, names: seq<string>)
    requires WellFormed(db) && r !in db.roles && RolesNamed(db, name) == {}
    ensures var inserted := Written(db, AddRole(r, name));
            Written(inserted, Grant(r, PermissionsNamed(inserted, names))) == After(db, CreateRole(r, name, names))
  {
    var inserted := Written(db, AddRole(r, name));
    assert PermissionsNamed(inserted, names) == PermissionsNamed(db, names);
  }

  lemma UnassignedRole(db: Db, r: RoleId)
    requires !exists ur :: ur in db.userRoles && ur.1 == r
    ensures (set ur | ur in db.userRoles && ur.1 != r) == db.userRoles
  {
  }

  // ------------------------------------------------------------------ whose permissions a write changes

  /** The users a write may give or take permissions, apart from a role's members and a row's referrers. */
  predicate MayConcern(db: Db, w: Write, u: UserId)
  {
    match w
    case AddRole(_, _) => false
    case Grant(r, _) => (u, r) in db.userRoles
    case AddPermission(_, _) => false
    case SetRoles(user, _) => user == u
    case TakeRoles(user, _) => user == u
    case SetStatus(_, _) => false
    case DropUser(user) => user == u
    case _ => true
  }

  lemma OthersAreNotConcerned(db: Db, w: Write, u: UserId)
    requires WellFormed(db) && NewId(db, w) && !MayConcern(db, w, u)
    ensures Effective(Written(db, w), u) == Effective(db, u)
  {
    hide Effective;
    SameJoin(db, Written(db, w), u);
  }

  /** Grants add to what a holder of the role has: they change it exactly when one of the names is new to the user. */
  lemma GrantChangesExactly(db: Db, r: RoleId, granted: set<PermissionId>, u: UserId)
    requires WellFormed(db) && Takes(db, Grant(r, granted)) && (u, r) in db.userRoles
    ensures Effective(Written(db, Grant(r, granted)), u) != Effective(db, u)
            <==> exists p :: p in granted && db.permissions[p] !in Effective(db, u)
  {
    var after := Written(db, Grant(r, granted));
    forall p | p in granted
      ensures db.permissions[p] in Effective(after, u)
    {
      assert (u, r) in after.userRoles && (r, p) in after.rolePermissions;
    }
    forall name
      ensures name in Effective(after, u)
              <==> name in Effective(db, u) || exists p :: p in granted && db.permissions[p] == name
    {
      GrantGives(db, r, granted, u, name);
    }
  }

  lemma GrantGives(db: Db, r: RoleId, granted: set<PermissionId>, u: UserId, name: string)
    requires WellFormed(db) && Takes(db, Grant(r, granted)) && (u, r) in db.userRoles
    ensures name in Effective(Written(db, Grant(r, granted)), u)
            <==> name in Effective(db, u) || exists p :: p in granted && db.permissions[p] == name
  {
    var after := Written(db, Grant(r, granted));
    if name in Effective(after, u) {
      var ur, rp :| ur in after.userRoles && rp in after.rolePermissions && ur.0 == u && ur.1 == rp.0
                    && rp.1 in after.permissions && after.permissions[rp.1] == name;
      assert rp in db.rolePermissions || rp.1 in granted;
    }
    if p :| p in granted && db.permissions[p] == name {
      assert (u, r) in after.userRoles && (r, p) in after.rolePermissions && after.permissions[p] == name;
    }
  }

  lemma GoneHasNothing(db: Db, u: UserId)
    ensures Effective(WithoutUser(db, u), u) == {}
  {
  }
}
