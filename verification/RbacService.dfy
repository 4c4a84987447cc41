/**
 * The service methods behind `Rbac.Outcome`, on the tables they update, with the permission cache. Between
 * completed calls and completed cache loads every cached entry is the live join, but for those of users who
 * deleted their own account.
 */
module RbacServices {
  import opened Basics
  import opened Schema
  import opened Rbac
  import SuperAdmin

  ghost predicate CacheOk(db: Db, cache: map<UserId, set<string>>)
  {
    forall u :: u in cache ==> cache[u] == Effective(db, u)
  }

  function Dropped(cache: map<UserId, set<string>>, scope: Scope): map<UserId, set<string>>
  {
    map u | u in cache && !Covers(scope, u) :: cache[u]
  }

  /** A completed call: its outcome, and the cache without what the call invalidates. */
  ghost predicate Completed(db: Db, cache: map<UserId, set<string>>, call: Call,
                            db': Db, cache': map<UserId, set<string>>, error: Option<Error>)
  {
    match Outcome(db, call)
    case Err(e) => db' == db && cache' == cache && error == Some(e)
    case Ok(after) => db' == after && cache' == Dropped(cache, ScopeOf(call)) && error.None?
  }

  /**
   * After a completed call every cached entry is the live join, unless the call is a user deleting their own
   * account while permissions are cached for it.
   */
  lemma CompletedCallsKeepCacheOk(db: Db, cache: map<UserId, set<string>>, call: Call,
                                  db': Db, cache': map<UserId, set<string>>, error: Option<Error>)
    requires WellFormed(db) && FreshId(db, call) && CacheOk(db, cache)
    requires Completed(db, cache, call, db', cache', error)
    ensures WellFormed(db')
    ensures CacheOk(db', cache') <==> !(call.DeleteOwnAccount? && error.None? && call.user in cache && cache[call.user] != {})
  {
    hide Effective, Outcome, WellFormed;
    KeepsWellFormed(db, call);
    forall u | u in cache'
      ensures cache'[u] == Effective(db', u) <==> !LeavesWithPermissions(db, call, u)
    {
      if Outcome(db, call).Ok? {
        ChangesAreCovered(db, call, u);
      }
    }
    if call.DeleteOwnAccount? && error.None? && call.user in cache && cache[call.user] != {} {
      assert LeavesWithPermissions(db, call, call.user) && call.user in cache';
    }
  }

  lemma NobodyLoggedOut(tokens: map<Token, UserId>, sessions: map<SessionId, Session>)
    ensures WithoutTokens(tokens, {}) == tokens
    ensures WithRevoked(sessions, {}) == sessions && WithoutSessions(sessions, {}) == sessions
  {
  }

  /** The user holds this role and no other. */
  ghost predicate HasOnlyRole(db: Db, u: UserId, r: RoleId)
  {
    forall q :: (u, q) in db.userRoles <==> q == r
  }

  /** The permissions of such a user are those of the role. */
  lemma OnlyRoleGives(db: Db, r: RoleId)
    requires WellFormed(db)
    ensures forall u: UserId, p :: HasOnlyRole(db, u, r) && p in db.permissions ==>
              (db.permissions[p] in Effective(db, u) <==> (r, p) in db.rolePermissions)
  {
    forall u: UserId, p | HasOnlyRole(db, u, r) && p in db.permissions
      ensures db.permissions[p] in Effective(db, u) <==> (r, p) in db.rolePermissions
    {
      assert (u, r) in db.userRoles;
      if db.permissions[p] in Effective(db, u) {
        var ur, rp :| ur in db.userRoles && rp in db.rolePermissions && ur.0 == u && ur.1 == rp.0
                      && rp.1 in db.permissions && db.permissions[rp.1] == db.permissions[p];
        assert (u, ur.1) in db.userRoles && rp == (r, p);
      }
    }
  }

  /** Whether a user has a role of this name, and any other one. */
  lemma RolesAre(db: Db, u: UserId, name: string)
    ensures name in RoleNames(db, u) <==> exists r :: (u, r) in db.userRoles && r in db.roles && db.roles[r] == name
    ensures RoleNames(db, u) - {name} != {} <==> exists r :: (u, r) in db.userRoles && r in db.roles && db.roles[r] != name
    ensures RoleNames(db, u) == {name} <==> name in RoleNames(db, u) && RoleNames(db, u) - {name} == {}
  {
    if r :| (u, r) in db.userRoles && r in db.roles && db.roles[r] != name {
      assert db.roles[r] in RoleNames(db, u) - {name};
    }
    if other :| other in RoleNames(db, u) - {name} {
      var ur :| ur in db.userRoles && ur.0 == u && ur.1 in db.roles && db.roles[ur.1] == other;
      assert (u, ur.1) in db.userRoles;
    }
  }

  predicate IsAdminTier(name: string)
  {
    name == "Admin" || name == "Super Admin" || name == "Moderator" || name == "Support Executive"
  }

  /** Whether a user has a role of the admin tier. */
  lemma TierIs(db: Db, u: UserId)
    ensures RoleNames(db, u) * ADMIN_TIER != {}
            <==> exists r :: (u, r) in db.userRoles && r in db.roles && IsAdminTier(db.roles[r])
  {
    if r :| (u, r) in db.userRoles && r in db.roles && IsAdminTier(db.roles[r]) {
      assert db.roles[r] in RoleNames(db, u) * ADMIN_TIER;
    }
    if name :| name in RoleNames(db, u) * ADMIN_TIER {
      var ur :| ur in db.userRoles && ur.0 == u && ur.1 in db.roles && db.roles[ur.1] == name;
      assert (u, ur.1) in db.userRoles;
    }
  }

  lemma OtherActiveSuperAdminsAre(db: Db, u: UserId)
    ensures ActiveHolders(db, SUPER_ADMIN) - {u} != {}
            <==> exists v, r :: v != u && (v, r) in db.userRoles && r in db.roles && db.roles[r] == "Super Admin"
                                && v in db.users && db.users[v].Active?
  {
    var others := ActiveHolders(db, SUPER_ADMIN) - {u};
    if v, r :| v != u && (v, r) in db.userRoles && r in db.roles && db.roles[r] == "Super Admin"
               && v in db.users && db.users[v].Active? {
      assert v in others;
    }
    if v :| v in others {
      SuperAdmin.HoldsExactly(db, v);
    }
  }

  /** Who holds the Super Admin role, and who else does. */
  lemma SuperAdminsAre(db: Db, u: UserId)
    ensures u in Holders(db, SUPER_ADMIN)
            <==> exists r :: (u, r) in db.userRoles && r in db.roles && db.roles[r] == "Super Admin"
    ensures Holders(db, SUPER_ADMIN) - {u} != {}
            <==> exists v, r :: v != u && (v, r) in db.userRoles && r in db.roles && db.roles[r] == "Super Admin"
  {
    var others := Holders(db, SUPER_ADMIN) - {u};
    if v, r :| v != u && (v, r) in db.userRoles && r in db.roles && db.roles[r] == "Super Admin" {
      assert v in others;
    }
    if v :| v in others {
      SuperAdmin.HoldsExactly(db, v);
    }
    SuperAdmin.HoldsExactly(db, u);
  }

  function ErrorOf(outcome: Result<Db, Error>): Option<Error>
  {
    match outcome
    case Ok(_) => None
    case Err(e) => Some(e)
  }

  lemma RoleRemoved(db: Db, u: UserId, r: RoleId, operatorRoles: set<string>)
    requires WellFormed(db) && r in db.roles && RemoveAdminRoleOutcome(db, u, db.roles[r], operatorRoles).Ok?
    ensures RemoveAdminRoleOutcome(db, u, db.roles[r], operatorRoles).value == db.(userRoles := db.userRoles - {(u, r)})
    ensures forall q :: q in db.roles && db.roles[q] == db.roles[r] ==> q == r
  {
    assert RolesNamed(db, db.roles[r]) == {r};
  }

  /** What a call of `assignPermissionsToRole` comes to, given whether its ids are in order and which ones they are. */
  lemma PermissionsAssigned(db: Db, r: RoleId, ids: Option<seq<PermissionId>>, names: seq<string>, error: Option<Error>,
                            holding: set<PermissionId>)
    requires error == if r !in db.roles then Some(NotFound)
                      else if ids.Some? && exists p :: p in ids.value && p !in db.permissions then Some(UnknownIds)
                      else if ids.Some? && !NoRepeats(ids.value) then Some(DuplicateRow) else None
    requires forall p :: p in holding <==> p in db.permissions && if ids.Some? then p in ids.value else db.permissions[p] in names
    ensures Outcome(db, AssignPermissions(r, ids, names))
         == if error.Some? then Err(error.value)
            else Ok(db.(rolePermissions := (set rp | rp in db.rolePermissions && rp.0 != r) + (set p | p in holding :: (r, p))))
  {
    var call := AssignPermissions(r, ids, names);
    if r in db.roles && ids.Some? && exists p :: p in ids.value && p !in db.permissions {
      var p :| p in ids.value && p !in db.permissions;
      assert p in AssignedPermissions(db, call);
    } else if r in db.roles {
      assert holding == AssignedPermissions(db, call);
    }
  }

  lemma StatusSet(db: Db, u: UserId, status: UserStatus, operatorRoles: set<string>)
    requires UpdateUserStatusOutcome(db, u, status, operatorRoles).Ok?
    ensures UpdateUserStatusOutcome(db, u, status, operatorRoles).value == db.(users := db.users[u := status])
  {
  }

  /** Row by row: whose tokens and sessions go, and whose stay. */
  lemma LoggedOut(tokens: map<Token, UserId>, sessions: map<SessionId, Session>, ids: set<UserId>)
    ensures forall k :: k in tokens ==> (k !in WithoutTokens(tokens, ids) <==> tokens[k] in ids)
    ensures forall k :: k in WithoutTokens(tokens, ids) ==> k in tokens && WithoutTokens(tokens, ids)[k] == tokens[k]
    ensures WithRevoked(sessions, ids).Keys == sessions.Keys
    ensures forall k :: k in sessions ==>
              WithRevoked(sessions, ids)[k] == Session(sessions[k].user, sessions[k].revoked || sessions[k].user in ids)
    ensures forall k :: k in sessions ==> (k !in WithoutSessions(sessions, ids) <==> sessions[k].user in ids)
    ensures forall k :: k in WithoutSessions(sessions, ids) ==> k in sessions && WithoutSessions(sessions, ids)[k] == sessions[k]
  {
  }

  lemma RolesAssigned(db: Db, u: UserId, roleIds: seq<RoleId>, operatorRoles: set<string>)
    requires AssignRolesOutcome(db, u, roleIds, operatorRoles).Ok?
    ensures AssignRolesOutcome(db, u, roleIds, operatorRoles).value
         == db.(userRoles := (set ur | ur in db.userRoles && ur.0 != u) + (set r | r in roleIds :: (u, r)))
  {
  }

  class RbacService {
    var users: map<UserId, UserStatus>
    var roles: map<RoleId, string>
    var permissions: map<PermissionId, string>
    var rolePermissions: set<(RoleId, PermissionId)>
    var userRoles: set<(UserId, RoleId)>
    var refreshTokens: map<Token, UserId>
    var sessions: map<SessionId, Session>
    var cache: map<UserId, set<string>>

    ghost function View(): Db
      reads this
    {
      Db(users, roles, permissions, rolePermissions, userRoles)
    }

    ghost predicate Valid()
      reads this
    {
      WellFormed(View()) && CacheOk(View(), cache)
    }

    constructor (db: Db, refreshTokens: map<Token, UserId>, sessions: map<SessionId, Session>)
      requires WellFormed(db)
      ensures Valid() && View() == db && cache == map[]
      ensures this.refreshTokens == refreshTokens && this.sessions == sessions
    {
      users, roles, permissions := db.users, db.roles, db.permissions;
      rolePermissions, userRoles, cache := db.rolePermissions, db.userRoles, map[];
      this.refreshTokens, this.sessions := refreshTokens, sessions;
    }

    /** `PermissionCacheManager.getUserPermissions`: a hit, or a load that stores what it read. */
    method GetUserPermissions(u: UserId) returns (names: set<string>)
      requires Valid()
      modifies `cache
      ensures Valid() && names == Effective(View(), u)
      ensures forall name :: name in names
                <==> exists r, p :: (u, r) in userRoles && (r, p) in rolePermissions && p in permissions && permissions[p] == name
      ensures cache == if u in old(cache) || u !in users then old(cache) else old(cache)[u := names]
    {
      if u in cache {
        return cache[u];
      }
      if u !in users {
        assert Effective(View(), u) == {};
        return {};
      }
      names := set ur, rp | ur in userRoles && rp in rolePermissions && ur.0 == u && ur.1 == rp.0 && rp.1 in permissions
        :: permissions[rp.1];
      cache := cache[u := names];
    }

    method InvalidateUser(u: UserId)
      modifies `cache
      ensures cache == Dropped(old(cache), Only(u)) == old(cache) - {u}
    {
      cache := cache - {u};
    }

    method InvalidateAll()
      modifies `cache
      ensures cache == Dropped(old(cache), Everyone) == map[]
    {
      cache := cache - cache.Keys;
    }

    method CreateRoleWith(r: RoleId, name: string, permissionNames: seq<string>) returns (error: Option<Error>)
      requires Valid() && r !in roles
      modifies `roles, `rolePermissions
      ensures Valid()
      ensures Completed(old(View()), old(cache), CreateRole(r, name, permissionNames), View(), cache, error)
      ensures error == if exists q :: q in old(roles) && old(roles)[q] == name then Some(NameTaken) else None
      ensures error.None? ==> roles == old(roles)[r := name]
      ensures error.None? ==> forall q, p ::
                (q, p) in rolePermissions
                <==> (q, p) in old(rolePermissions) || (q == r && p in permissions && permissions[p] in permissionNames)
    {
      hide Effective, WellFormed, CacheOk;
      if r' :| r' in roles && roles[r'] == name {
        assert r' in RolesNamed(View(), name);
        return Some(NameTaken);
      }
      assert RolesNamed(View(), name) == {};
      var records := PermissionsNamed(Db(users, roles, permissions, rolePermissions, userRoles), permissionNames);
      roles := roles[r := name];
      if |permissionNames| > 0 {
        rolePermissions := rolePermissions + set p | p in records :: (r, p);
      }
      error := None;
      ghost var call := CreateRole(r, name, permissionNames);
      assert rolePermissions == After(old(View()), call).rolePermissions;
      assert cache == Dropped(old(cache), Nobody);
      CompletedCallsKeepCacheOk(old(View()), old(cache), call, View(), cache, error);
    }

    method RenameRole(r: RoleId, name: string) returns (error: Option<Error>)
      requires Valid()
      modifies `roles, `cache
      ensures Valid()
      ensures Completed(old(View()), old(cache), UpdateRole(r, name), View(), cache, error)
      ensures error == if r !in old(roles) then Some(NotFound)
                       else if exists q :: q in old(roles) && q != r && old(roles)[q] == name then Some(NameTaken) else None
      ensures error.None? ==> roles == old(roles)[r := name] && cache == map[]
    {
      hide Effective, WellFormed, CacheOk;
      if r !in roles {
        return Some(NotFound);
      }
      if r' :| r' in roles && roles[r'] == name && r' != r {
        assert r' in RolesNamed(View(), name) - {r};
        return Some(NameTaken);
      }
      assert RolesNamed(View(), name) - {r} == {};
      roles := roles[r := name];
      InvalidateAll();
      error := None;
      CompletedCallsKeepCacheOk(old(View()), old(cache), UpdateRole(r, name), View(), cache, error);
    }

    method RemoveRole(r: RoleId) returns (error: Option<Error>)
      requires Valid()
      modifies `roles, `rolePermissions, `cache
      ensures Valid()
      ensures Completed(old(View()), old(cache), DeleteRole(r), View(), cache, error)
      ensures error == if r !in old(roles) then Some(NotFound)
                       else if old(roles)[r] in {"Candidate", "Recruiter", "Moderator", "Admin", "Super Admin",
                                                 "Support Executive"}
                       then Some(SystemRole)
                       else if exists u :: (u, r) in userRoles then Some(RoleInUse) else None
      ensures error.None? ==> roles == old(roles) - {r} && cache == map[]
      ensures error.None? ==> forall q, p :: (q, p) in rolePermissions <==> (q, p) in old(rolePermissions) && q != r
    {
      hide Effective, WellFormed, CacheOk;
      if r !in roles {
        return Some(NotFound);
      }
      if roles[r] in SYSTEM_ROLES {
        return Some(SystemRole);
      }
      var holding := set ur | ur in userRoles && ur.1 == r;
      if |holding| > 0 {
        var ur :| ur in holding;
        return Some(RoleInUse);
      }
      assert forall ur :: ur in userRoles && ur.1 == r ==> ur in holding;
      roles := roles - {r};
      rolePermissions := set rp | rp in rolePermissions && rp.0 != r;
      InvalidateAll();
      error := None;
      CompletedCallsKeepCacheOk(old(View()), old(cache), DeleteRole(r), View(), cache, error);
    }

    method AddPermission(p: PermissionId, name: string) returns (error: Option<Error>)
      requires Valid() && p !in permissions
      modifies `permissions
      ensures Valid()
      ensures Completed(old(View()), old(cache), CreatePermission(p, name), View(), cache, error)
      ensures error == if exists q :: q in old(permissions) && old(permissions)[q] == name then Some(NameTaken) else None
      ensures error.None? ==> permissions == old(permissions)[p := name]
    {
      hide Effective, WellFormed, CacheOk;
      if p' :| p' in permissions && permissions[p'] == name {
        assert p' in PermissionsNamed(View(), [name]);
        return Some(NameTaken);
      }
      assert PermissionsNamed(View(), [name]) == {};
      permissions := permissions[p := name];
      error := None;
      assert cache == Dropped(old(cache), Nobody);
      CompletedCallsKeepCacheOk(old(View()), old(cache), CreatePermission(p, name), View(), cache, error);
    }

    method RenamePermission(p: PermissionId, name: string) returns (error: Option<Error>)
      requires Valid()
      modifies `permissions, `cache
      ensures Valid()
      ensures Completed(old(View()), old(cache), UpdatePermission(p, name), View(), cache, error)
      ensures error == if p !in old(permissions) then Some(NotFound)
                       else if exists q :: q in old(permissions) && q != p && old(permissions)[q] == name then Some(NameTaken)
                       else None
      ensures error.None? ==> permissions == old(permissions)[p := name] && cache == map[]
    {
      hide Effective, WellFormed, CacheOk;
      if p !in permissions {
        return Some(NotFound);
      }
      if p' :| p' in permissions && permissions[p'] == name && p' != p {
        assert p' in PermissionsNamed(View(), [name]) - {p};
        return Some(NameTaken);
      }
      assert PermissionsNamed(View(), [name]) - {p} == {};
      permissions := permissions[p := name];
      InvalidateAll();
      error := None;
      CompletedCallsKeepCacheOk(old(View()), old(cache), UpdatePermission(p, name), View(), cache, error);
    }

    method RemovePermission(p: PermissionId) returns (error: Option<Error>)
      requires Valid()
      modifies `permissions, `rolePermissions, `cache
      ensures Valid()
      ensures Completed(old(View()), old(cache), DeletePermission(p), View(), cache, error)
      ensures error == if p in old(permissions) then None else Some(NotFound)
      ensures error.None? ==> permissions == old(permissions) - {p} && cache == map[]
      ensures error.None? ==> forall r, q :: (r, q) in rolePermissions <==> (r, q) in old(rolePermissions) && q != p
    {
      hide Effective, WellFormed, CacheOk;
      if p !in permissions {
        return Some(NotFound);
      }
      permissions := permissions - {p};
      rolePermissions := set rp | rp in rolePermissions && rp.1 != p;
      InvalidateAll();
      error := None;
      CompletedCallsKeepCacheOk(old(View()), old(cache), DeletePermission(p), View(), cache, error);
    }

    /** The transaction: the role's rows are deleted and the new ones inserted. */
    method ReplaceGrants(r: RoleId, holding: set<PermissionId>)
      modifies `rolePermissions
      ensures rolePermissions == (set rp | rp in old(rolePermissions) && rp.0 != r) + (set p | p in holding :: (r, p))
      ensures forall q, p :: (q, p) in rolePermissions <==> if q == r then p in holding else (q, p) in old(rolePermissions)
    {
      rolePermissions := set rp | rp in rolePermissions && rp.0 != r;
      rolePermissions := rolePermissions + set p | p in holding :: (r, p);
    }

    /** The ids given, or those of the names given; an unknown or repeated id is found when the rows are inserted. */
    method ResolvePermissions(r: RoleId, ids: Option<seq<PermissionId>>, names: seq<string>)
      returns (error: Option<Error>, holding: set<PermissionId>)
      ensures error == if r !in roles then Some(NotFound)
                       else if ids.Some? && exists p :: p in ids.value && p !in permissions then Some(UnknownIds)
                       else if ids.Some? && !NoRepeats(ids.value) then Some(DuplicateRow) else None
      ensures forall p ::
                p in holding <==> p in permissions && if ids.Some? then p in ids.value else permissions[p] in names
    {
      holding := PermissionsNamed(Db(users, roles, permissions, rolePermissions, userRoles), names);
      if ids.Some? {
        holding := set p | p in ids.value && p in permissions;
      }
      if r !in roles {
        return Some(NotFound), holding;
      }
      if ids.Some? {
        if exists p :: p in ids.value && p !in permissions {
          return Some(UnknownIds), holding;
        }
        if exists i, j :: 0 <= i < j < |ids.value| && ids.value[i] == ids.value[j] {
          return Some(DuplicateRow), holding;
        }
      }
      error := None;
    }

    method AssignPermissionsToRole(r: RoleId, ids: Option<seq<PermissionId>>, names: seq<string>)
      returns (error: Option<Error>)
      requires Valid()
      modifies `rolePermissions, `cache
      ensures Valid()
      ensures Completed(old(View()), old(cache), AssignPermissions(r, ids, names), View(), cache, error)
      ensures error == if r !in roles then Some(NotFound)
                       else if ids.Some? && exists p :: p in ids.value && p !in permissions then Some(UnknownIds)
                       else if ids.Some? && !NoRepeats(ids.value) then Some(DuplicateRow) else None
      ensures error.None? ==> cache == map[]
      ensures error.None? ==> forall p :: p in permissions ==>
                ((r, p) in rolePermissions <==> if ids.Some? then p in ids.value else permissions[p] in names)
      ensures error.None? ==> forall q, p :: q != r ==> ((q, p) in rolePermissions <==> (q, p) in old(rolePermissions))
      ensures error.None? ==> forall u: UserId, p :: HasOnlyRole(View(), u, r) && p in permissions ==>
                (permissions[p] in Effective(View(), u) <==> if ids.Some? then p in ids.value else permissions[p] in names)
    {
      hide Effective, WellFormed, CacheOk, HasOnlyRole, Outcome, NoRepeats;
      ghost var call := AssignPermissions(r, ids, names);
      var holding;
      error, holding := ResolvePermissions(r, ids, names);
      PermissionsAssigned(View(), r, ids, names, error, holding);
      if error.Some? {
        return;
      }
      ReplaceGrants(r, holding);
      InvalidateAll();
      CompletedCallsKeepCacheOk(old(View()), old(cache), call, View(), cache, error);
      OnlyRoleGives(View(), r);
    }

    /** The guards of `assignRolesToUser`, in order. */
    method CheckAssignment(u: UserId, roleIds: seq<RoleId>, operatorRoles: set<string>) returns (error: Option<Error>)
      ensures error == ErrorOf(AssignRolesOutcome(View(), u, roleIds, operatorRoles))
      ensures var had := exists r :: (u, r) in userRoles && r in roles && roles[r] == "Super Admin";
              var others := exists v, r :: v != u && (v, r) in userRoles && r in roles && roles[r] == "Super Admin";
              error == if u !in users then Some(NotFound)
                       else if exists r :: r in roleIds && r !in roles then Some(UnknownIds)
                       else
                         var willHave := exists r :: r in roleIds && roles[r] == "Super Admin";
                         if had != willHave && "Super Admin" !in operatorRoles then Some(NeedsSuperAdmin)
                         else if had && !willHave && !others then Some(LastSuperAdmin)
                         else if !NoRepeats(roleIds) then Some(DuplicateRow) else None
    {
      hide Holders;
      SuperAdminsAre(View(), u);
      if u !in users {
        return Some(NotFound);
      }
      if exists r :: r in roleIds && r !in roles {
        return Some(UnknownIds);
      }
      var superAdmins := Holders(Db(users, roles, permissions, rolePermissions, userRoles), SUPER_ADMIN);
      var had := u in superAdmins;
      var willHave := exists r :: r in roleIds && roles[r] == SUPER_ADMIN;
      if had != willHave && SUPER_ADMIN !in operatorRoles {
        return Some(NeedsSuperAdmin);
      }
      if had && !willHave {
        if superAdmins - {u} == {} {
          return Some(LastSuperAdmin);
        }
      }
      if exists i, j :: 0 <= i < j < |roleIds| && roleIds[i] == roleIds[j] {
        return Some(DuplicateRow);
      }
      error := None;
    }

    /** The transaction: the user's rows are deleted and the new ones inserted. */
    method ReplaceRoles(u: UserId, roleIds: seq<RoleId>)
      modifies `userRoles
      ensures userRoles == (set ur | ur in old(userRoles) && ur.0 != u) + (set r | r in roleIds :: (u, r))
      ensures forall v, r :: (v, r) in userRoles <==> if v == u then r in roleIds else (v, r) in old(userRoles)
    {
      userRoles := set ur | ur in userRoles && ur.0 != u;
      userRoles := userRoles + set r | r in roleIds :: (u, r);
    }

    method AssignRolesToUser(u: UserId, roleIds: seq<RoleId>, operatorRoles: set<string>) returns (error: Option<Error>)
      requires Valid()
      modifies `userRoles, `cache
      ensures Valid()
      ensures Completed(old(View()), old(cache), AssignRoles(u, roleIds, operatorRoles), View(), cache, error)
      ensures var had := exists r :: (u, r) in old(userRoles) && r in roles && roles[r] == "Super Admin";
              var others := exists v, r :: v != u && (v, r) in old(userRoles) && r in roles && roles[r] == "Super Admin";
              error == if u !in users then Some(NotFound)
                       else if exists r :: r in roleIds && r !in roles then Some(UnknownIds)
                       else
                         var willHave := exists r :: r in roleIds && roles[r] == "Super Admin";
                         if had != willHave && "Super Admin" !in operatorRoles then Some(NeedsSuperAdmin)
                         else if had && !willHave && !others then Some(LastSuperAdmin)
                         else if !NoRepeats(roleIds) then Some(DuplicateRow) else None
      ensures error.None? ==> cache == old(cache) - {u}
      ensures error.None? ==> forall v, r :: (v, r) in userRoles <==> if v == u then r in roleIds else (v, r) in old(userRoles)
    {
      hide Effective, WellFormed, CacheOk, Holders, AssignRolesOutcome;
      ghost var call := AssignRoles(u, roleIds, operatorRoles);
      error := CheckAssignment(u, roleIds, operatorRoles);
      if error.Some? {
        return;
      }
      ReplaceRoles(u, roleIds);
      InvalidateUser(u);
      RolesAssigned(old(View()), u, roleIds, operatorRoles);
      CompletedCallsKeepCacheOk(old(View()), old(cache), call, View(), cache, error);
    }

    /** The guards of `removeAdminRole`, in order. */
    method CheckRoleRemoval(u: UserId, name: string, operatorRoles: set<string>) returns (error: Option<Error>)
      ensures error == ErrorOf(RemoveAdminRoleOutcome(View(), u, name, operatorRoles))
      ensures var has := exists r :: (u, r) in userRoles && r in roles && roles[r] == name;
              var more := exists r :: (u, r) in userRoles && r in roles && roles[r] != name;
              var others := exists v, r :: v != u && (v, r) in userRoles && r in roles && roles[r] == "Super Admin";
              error == if "Super Admin" !in operatorRoles then Some(NeedsSuperAdmin)
                       else if u !in users then Some(NotFound)
                       else if !has then Some(LacksRole)
                       else if !more then Some(OnlyRole)
                       else if name == "Super Admin" && !others then Some(LastSuperAdmin) else None
    {
      hide Holders, RoleNames;
      RolesAre(View(), u, name);
      SuperAdminsAre(View(), u);
      var db := Db(users, roles, permissions, rolePermissions, userRoles);
      if SUPER_ADMIN !in operatorRoles {
        return Some(NeedsSuperAdmin);
      }
      if u !in users {
        return Some(NotFound);
      }
      var current := RoleNames(db, u);
      if name !in current {
        return Some(LacksRole);
      }
      if current == {name} {
        return Some(OnlyRole);
      }
      if name == SUPER_ADMIN && Holders(db, SUPER_ADMIN) - {u} == {} {
        return Some(LastSuperAdmin);
      }
      error := None;
    }

    method RemoveRoleFromAdmin(u: UserId, name: string, operatorRoles: set<string>) returns (error: Option<Error>)
      requires Valid()
      modifies `userRoles, `cache
      ensures Valid()
      ensures Completed(old(View()), old(cache), RemoveAdminRole(u, name, operatorRoles), View(), cache, error)
      ensures var has := exists r :: (u, r) in old(userRoles) && r in roles && roles[r] == name;
              var more := exists r :: (u, r) in old(userRoles) && r in roles && roles[r] != name;
              var others := exists v, r :: v != u && (v, r) in old(userRoles) && r in roles && roles[r] == "Super Admin";
              error == if "Super Admin" !in operatorRoles then Some(NeedsSuperAdmin)
                       else if u !in users then Some(NotFound)
                       else if !has then Some(LacksRole)
                       else if !more then Some(OnlyRole)
                       else if name == "Super Admin" && !others then Some(LastSuperAdmin) else None
      ensures error.None? ==> cache == old(cache) - {u}
      ensures error.None? ==> forall v, r :: r in roles ==>
                ((v, r) in userRoles <==> (v, r) in old(userRoles) && !(v == u && roles[r] == name))
    {
      hide Effective, CacheOk, WellFormed, RemoveAdminRoleOutcome;
      ghost var call := RemoveAdminRole(u, name, operatorRoles);
      error := CheckRoleRemoval(u, name, operatorRoles);
      if error.Some? {
        return;
      }
      var r :| r in roles && roles[r] == name;
      userRoles := userRoles - {(u, r)};
      InvalidateUser(u);
      RoleRemoved(old(View()), u, r, operatorRoles);
      CompletedCallsKeepCacheOk(old(View()), old(cache), call, View(), cache, error);
    }

    /** A user whose account is not active has no token left and no live session. */
    method LogOutUnlessActive(u: UserId, status: UserStatus)
      modifies `refreshTokens, `sessions
      ensures var loggedOut := if status.Active? then {} else {u};
              && refreshTokens == WithoutTokens(old(refreshTokens), loggedOut)
              && sessions == WithRevoked(old(sessions), loggedOut)
      ensures forall k :: k in old(refreshTokens) ==> (k !in refreshTokens <==> !status.Active? && old(refreshTokens)[k] == u)
      ensures forall k :: k in refreshTokens ==> k in old(refreshTokens) && refreshTokens[k] == old(refreshTokens)[k]
      ensures sessions.Keys == old(sessions).Keys
      ensures forall k :: k in sessions ==>
                var before := old(sessions)[k];
                sessions[k] == Session(before.user, before.revoked || (!status.Active? && before.user == u))
    {
      if status != Active {
        refreshTokens := WithoutTokens(refreshTokens, {u});
        sessions := WithRevoked(sessions, {u});
      }
    }

    /** The guards of `updateUserStatus`, in order. */
    method CheckStatusChange(u: UserId, status: UserStatus, operatorRoles: set<string>) returns (error: Option<Error>)
      ensures error == ErrorOf(UpdateUserStatusOutcome(View(), u, status, operatorRoles))
      ensures var tier := exists r :: (u, r) in userRoles && r in roles && IsAdminTier(roles[r]);
              var isSuperAdmin := exists r :: (u, r) in userRoles && r in roles && roles[r] == "Super Admin";
              var others := exists v, r :: v != u && (v, r) in userRoles && r in roles && roles[r] == "Super Admin"
                                           && v in users && users[v].Active?;
              error == if u !in users then Some(NotFound)
                       else if tier && "Super Admin" !in operatorRoles then Some(NeedsSuperAdmin)
                       else if isSuperAdmin && !status.Active? && !others then Some(LastSuperAdmin) else None
    {
      hide RoleNames, Holders, ActiveHolders, IsAdminTier;
      TierIs(View(), u);
      RolesAre(View(), u, SUPER_ADMIN);
      OtherActiveSuperAdminsAre(View(), u);
      var db := Db(users, roles, permissions, rolePermissions, userRoles);
      if u !in users {
        return Some(NotFound);
      }
      var target := RoleNames(db, u);
      if target * ADMIN_TIER != {} && SUPER_ADMIN !in operatorRoles {
        return Some(NeedsSuperAdmin);
      }
      if SUPER_ADMIN in target && status != Active {
        if ActiveHolders(db, SUPER_ADMIN) - {u} == {} {
          return Some(LastSuperAdmin);
        }
      }
      error := None;
    }

    method SetUserStatus(u: UserId, status: UserStatus, operatorRoles: set<string>) returns (error: Option<Error>)
      requires Valid()
      modifies `users, `cache, `refreshTokens, `sessions
      ensures Valid()
      ensures Completed(old(View()), old(cache), UpdateUserStatus(u, status, operatorRoles), View(), cache, error)
      ensures var tier := exists r :: (u, r) in userRoles && r in roles && IsAdminTier(roles[r]);
              var isSuperAdmin := exists r :: (u, r) in userRoles && r in roles && roles[r] == "Super Admin";
              var others := exists v, r :: v != u && (v, r) in userRoles && r in roles && roles[r] == "Super Admin"
                                           && v in old(users) && old(users)[v].Active?;
              error == if u !in old(users) then Some(NotFound)
                       else if tier && "Super Admin" !in operatorRoles then Some(NeedsSuperAdmin)
                       else if isSuperAdmin && !status.Active? && !others then Some(LastSuperAdmin) else None
      ensures error.None? ==> users == old(users)[u := status] && cache == old(cache) - {u}
      ensures forall k :: k in old(refreshTokens)
                          ==> (k !in refreshTokens <==> error.None? && !status.Active? && old(refreshTokens)[k] == u)
      ensures forall k :: k in refreshTokens ==> k in old(refreshTokens) && refreshTokens[k] == old(refreshTokens)[k]
      ensures sessions.Keys == old(sessions).Keys
      ensures forall k :: k in sessions ==>
                var before := old(sessions)[k];
                sessions[k] == Session(before.user, before.revoked || (error.None? && !status.Active? && before.user == u))
      ensures var loggedOut := if error.None? && !status.Active? then {u} else {};
              && refreshTokens == WithoutTokens(old(refreshTokens), loggedOut)
              && sessions == WithRevoked(old(sessions), loggedOut)
    {
      hide Effective, WellFormed, CacheOk, WithoutTokens, WithRevoked, RoleNames, Holders, ActiveHolders, IsAdminTier;
      hide UpdateUserStatusOutcome;
      NobodyLoggedOut(refreshTokens, sessions);
      ghost var call := UpdateUserStatus(u, status, operatorRoles);
      error := CheckStatusChange(u, status, operatorRoles);
      if error.Some? {
        return;
      }
      users := users[u := status];
      InvalidateUser(u);
      LogOutUnlessActive(u, status);
      StatusSet(old(View()), u, status, operatorRoles);
      CompletedCallsKeepCacheOk(old(View()), old(cache), call, View(), cache, error);
    }

    /** A deleted user's tokens and sessions go with the row. */
    method DropUser(u: UserId)
      requires u in users
      modifies `users, `userRoles, `refreshTokens, `sessions
      ensures View() == WithoutUser(old(View()), u)
      ensures refreshTokens == WithoutTokens(old(refreshTokens), {u}) && sessions == WithoutSessions(old(sessions), {u})
    {
      users := users - {u};
      userRoles := set ur | ur in userRoles && ur.0 != u;
      refreshTokens := WithoutTokens(refreshTokens, {u});
      sessions := WithoutSessions(sessions, {u});
    }

    method RemoveUser(operator: UserId, u: UserId, operatorRoles: set<string>, stillReferenced: bool)
      returns (error: Option<Error>)
      requires Valid()
      modifies `users, `userRoles, `cache, `refreshTokens, `sessions
      ensures Valid()
      ensures var call := DeleteUser(operator, u, operatorRoles, stillReferenced);
              Completed(old(View()), old(cache), call, View(), cache, error)
      ensures var tier := exists r :: (u, r) in old(userRoles) && r in roles && IsAdminTier(roles[r]);
              var isSuperAdmin := exists r :: (u, r) in old(userRoles) && r in roles && roles[r] == "Super Admin";
              error == if operator == u then Some(OwnAccount)
                       else if u !in old(users) then Some(NotFound)
                       else if isSuperAdmin then Some(SuperAdminAccount)
                       else if tier && "Super Admin" !in operatorRoles then Some(NeedsSuperAdmin)
                       else if stillReferenced then Some(StillReferenced) else None
      ensures error.None? ==> users == old(users) - {u} && cache == old(cache) - {u}
      ensures error.None? ==> forall v, r :: (v, r) in userRoles <==> (v, r) in old(userRoles) && v != u
      ensures forall k :: k in old(refreshTokens) ==> (k !in refreshTokens <==> error.None? && old(refreshTokens)[k] == u)
      ensures forall k :: k in refreshTokens ==> k in old(refreshTokens) && refreshTokens[k] == old(refreshTokens)[k]
      ensures forall k :: k in old(sessions) ==> (k !in sessions <==> error.None? && old(sessions)[k].user == u)
      ensures forall k :: k in sessions ==> k in old(sessions) && sessions[k] == old(sessions)[k]
      ensures var gone := if error.None? then {u} else {};
              && refreshTokens == WithoutTokens(old(refreshTokens), gone) && sessions == WithoutSessions(old(sessions), gone)
    {
      hide Effective, WellFormed, CacheOk, WithoutTokens, WithoutSessions, RoleNames, IsAdminTier;
      NobodyLoggedOut(refreshTokens, sessions);
      LoggedOut(refreshTokens, sessions, {});
      LoggedOut(refreshTokens, sessions, {u});
      TierIs(View(), u);
      RolesAre(View(), u, SUPER_ADMIN);
      ghost var call := DeleteUser(operator, u, operatorRoles, stillReferenced);
      if operator == u {
        return Some(OwnAccount);
      }
      if u !in users {
        return Some(NotFound);
      }
      var target := RoleNames(Db(users, roles, permissions, rolePermissions, userRoles), u);
      if SUPER_ADMIN in target {
        return Some(SuperAdminAccount);
      }
      if target * ADMIN_TIER != {} && SUPER_ADMIN !in operatorRoles {
        return Some(NeedsSuperAdmin);
      }
      if stillReferenced {
        return Some(StillReferenced);
      }
      DropUser(u);
      InvalidateUser(u);
      error := None;
      CompletedCallsKeepCacheOk(old(View()), old(cache), call, View(), cache, error);
    }

    /** `deleteOwnAccount`: nothing is invalidated, so what was cached for the user stays. */
    method RemoveOwnAccount(u: UserId, passwordMatches: bool, ownsJobs: bool) returns (error: Option<Error>)
      requires Valid()
      modifies `users, `userRoles, `refreshTokens, `sessions
      ensures Completed(old(View()), old(cache), DeleteOwnAccount(u, passwordMatches, ownsJobs), View(), cache, error)
      ensures error == if u !in old(users) then Some(NotFound)
                       else if !passwordMatches then Some(WrongPassword)
                       else if ownsJobs then Some(OwnsJobs) else None
      ensures error.None? ==> users == old(users) - {u} && cache == old(cache)
      ensures error.None? ==> forall v, r :: (v, r) in userRoles <==> (v, r) in old(userRoles) && v != u
      ensures forall k :: k in old(refreshTokens) ==> (k !in refreshTokens <==> error.None? && old(refreshTokens)[k] == u)
      ensures forall k :: k in old(sessions) ==> (k !in sessions <==> error.None? && old(sessions)[k].user == u)
      ensures Valid() <==> error.Some? || u !in cache || cache[u] == {}
    {
      hide Effective, WellFormed, CacheOk, WithoutTokens, WithoutSessions;
      LoggedOut(refreshTokens, sessions, {u});
      ghost var call := DeleteOwnAccount(u, passwordMatches, ownsJobs);
      error := None;
      if u !in users {
        error := Some(NotFound);
      } else if !passwordMatches {
        error := Some(WrongPassword);
      } else if ownsJobs {
        error := Some(OwnsJobs);
      } else {
        DropUser(u);
      }
      assert cache == Dropped(old(cache), Nobody);
      CompletedCallsKeepCacheOk(old(View()), old(cache), call, View(), cache, error);
    }
  }
}
