/**
 * Which calls leave the platform with a Super Admin, and exactly which do not, when calls do not overlap. The
 * guards count and the writes come later: `SuperAdminSteps` takes them apart.
 */
module SuperAdmin {
  import opened Schema
  import opened Rbac

  lemma HoldsExactly(db: Db, u: UserId)
    ensures u in Holders(db, SUPER_ADMIN)
            <==> exists ur :: ur in db.userRoles && ur.0 == u && ur.1 in db.roles && db.roles[ur.1] == SUPER_ADMIN
    ensures u in Holders(db, SUPER_ADMIN) <==> SUPER_ADMIN in RoleNames(db, u)
  {
  }

  /** `updateRole` has no system-role guard: this call gives the Super Admin role another name. */
  predicate RenamesSuperAdmin(db: Db, call: Call)
  {
    && call.UpdateRole? && Outcome(db, call).Ok?
    && db.roles[call.role] == SUPER_ADMIN && call.name != SUPER_ADMIN
  }

  /** `deleteOwnAccount` has no Super Admin guard: the only one can leave. */
  predicate LastOneLeaves(db: Db, call: Call)
  {
    call.DeleteOwnAccount? && Outcome(db, call).Ok? && Holders(db, SUPER_ADMIN) - {call.user} == {}
  }

  /** A user who still holds the role after a call that does not rename it. */
  lemma KeepsHolder(db: Db, call: Call, u: UserId)
    requires WellFormed(db) && FreshId(db, call) && u in Holders(db, SUPER_ADMIN) && !RenamesSuperAdmin(db, call)
    requires !((call.AssignRoles? || (call.RemoveAdminRole? && call.name == SUPER_ADMIN)) && call.user == u)
    requires !(call.DeleteOwnAccount? && call.user == u)
    ensures u in Holders(After(db, call), SUPER_ADMIN)
  {
    HoldsExactly(db, u);
    var ur :| ur in db.userRoles && ur.0 == u && ur.1 in db.roles && db.roles[ur.1] == SUPER_ADMIN;
    var after := After(db, call);
    assert ur in after.userRoles && ur.1 in after.roles && after.roles[ur.1] == SUPER_ADMIN;
  }

  /** Granting roles that include Super Admin makes the user a holder. */
  lemma GrantedHolds(db: Db, call: Call)
    requires WellFormed(db) && call.AssignRoles? && Outcome(db, call).Ok?
    requires exists r :: r in call.roleIds && db.roles[r] == SUPER_ADMIN
    ensures call.user in Holders(After(db, call), SUPER_ADMIN)
  {
    var r :| r in call.roleIds && db.roles[r] == SUPER_ADMIN;
    assert (call.user, r) in After(db, call).userRoles;
  }

  lemma RenamedAway(db: Db, call: Call)
    requires WellFormed(db) && RenamesSuperAdmin(db, call)
    ensures Holders(After(db, call), SUPER_ADMIN) == {}
  {
  }

  lemma GoneHoldsNothing(db: Db, call: Call)
    requires WellFormed(db) && call.DeleteOwnAccount? && Outcome(db, call).Ok?
    ensures Holders(After(db, call), SUPER_ADMIN) <= Holders(db, SUPER_ADMIN) - {call.user}
  {
  }

  /**
   * A platform with a Super Admin still has one after a call, whatever the call, unless the call renames the
   * Super Admin role itself or is the last Super Admin deleting their own account.
   */
  lemma KeepsASuperAdminExactly(db: Db, call: Call)
    requires WellFormed(db) && FreshId(db, call) && Holders(db, SUPER_ADMIN) != {}
    ensures Holders(After(db, call), SUPER_ADMIN) != {} <==> !RenamesSuperAdmin(db, call) && !LastOneLeaves(db, call)
  {
    hide Holders;
    if RenamesSuperAdmin(db, call) {
      RenamedAway(db, call);
    } else if LastOneLeaves(db, call) {
      GoneHoldsNothing(db, call);
    } else {
      var u :| u in Holders(db, SUPER_ADMIN);
      if (call.AssignRoles? || (call.RemoveAdminRole? && call.name == SUPER_ADMIN)) && call.user == u {
        if call.AssignRoles? && Outcome(db, call).Ok? && exists r :: r in call.roleIds && db.roles[r] == SUPER_ADMIN {
          GrantedHolds(db, call);
        } else if Outcome(db, call).Ok? {
          var v :| v in Holders(db, SUPER_ADMIN) - {u};
          KeepsHolder(db, call, v);
        }
      } else if call.DeleteOwnAccount? && call.user == u {
        if Outcome(db, call).Ok? {
          var v :| v in Holders(db, SUPER_ADMIN) - {u};
          KeepsHolder(db, call, v);
        }
      } else {
        KeepsHolder(db, call, u);
      }
    }
  }

  // ------------------------------------------------------------------ active Super Admins

  /**
   * The two role-removing calls count every other holder, suspended ones included, so they can take the role
   * from the only active one. Renaming the role is the third way, deleting one's own account the fourth.
   */
  predicate StrandsActive(db: Db, call: Call)
  {
    || RenamesSuperAdmin(db, call)
    || (&& Outcome(db, call).Ok?
        && (|| (call.AssignRoles? && !(exists r :: r in call.roleIds && db.roles[r] == SUPER_ADMIN))
            || (call.RemoveAdminRole? && call.name == SUPER_ADMIN)
            || call.DeleteOwnAccount?)
        && ActiveHolders(db, SUPER_ADMIN) - {call.user} == {})
  }

  lemma NoLongerHolds(db: Db, call: Call)
    requires WellFormed(db) && Outcome(db, call).Ok?
    requires || (call.AssignRoles? && !(exists r :: r in call.roleIds && db.roles[r] == SUPER_ADMIN))
             || (call.RemoveAdminRole? && call.name == SUPER_ADMIN)
    ensures Holders(After(db, call), SUPER_ADMIN) <= Holders(db, SUPER_ADMIN) - {call.user}
    ensures After(db, call).users == db.users
  {
  }

  lemma StaysActive(db: Db, call: Call, u: UserId)
    requires WellFormed(db) && Outcome(db, call).Ok? && u in ActiveHolders(db, SUPER_ADMIN)
    requires !((call.UpdateUserStatus? || call.DeleteUser? || call.DeleteOwnAccount?) && call.user == u)
    ensures u in After(db, call).users && After(db, call).users[u].Active?
  {
  }

  /** An active Super Admin remains after a call exactly when the call does not strand the platform. */
  lemma KeepsAnActiveSuperAdminExactly(db: Db, call: Call)
    requires WellFormed(db) && FreshId(db, call) && ActiveHolders(db, SUPER_ADMIN) != {}
    ensures ActiveHolders(After(db, call), SUPER_ADMIN) != {} <==> !StrandsActive(db, call)
  {
    hide Holders, RoleNames;
    var after := After(db, call);
    var u :| u in ActiveHolders(db, SUPER_ADMIN);
    HoldsExactly(db, u);
    if Outcome(db, call).Err? {
    } else if RenamesSuperAdmin(db, call) {
      RenamedAway(db, call);
    } else if call.AssignRoles? && exists r :: r in call.roleIds && db.roles[r] == SUPER_ADMIN {
      StaysActive(db, call, u);
      if call.user == u {
        GrantedHolds(db, call);
      } else {
        KeepsHolder(db, call, u);
      }
      assert u in ActiveHolders(after, SUPER_ADMIN);
    } else if call.AssignRoles? || (call.RemoveAdminRole? && call.name == SUPER_ADMIN) {
      NoLongerHolds(db, call);
      if v :| v in ActiveHolders(db, SUPER_ADMIN) - {call.user} {
        KeepsHolder(db, call, v);
        StaysActive(db, call, v);
        assert v in ActiveHolders(after, SUPER_ADMIN);
      } else {
        assert ActiveHolders(after, SUPER_ADMIN) <= ActiveHolders(db, SUPER_ADMIN) - {call.user};
      }
    } else if call.DeleteOwnAccount? {
      if v :| v in ActiveHolders(db, SUPER_ADMIN) - {call.user} {
        KeepsHolder(db, call, v);
        StaysActive(db, call, v);
        assert v in ActiveHolders(after, SUPER_ADMIN);
      } else {
        GoneHoldsNothing(db, call);
        assert ActiveHolders(after, SUPER_ADMIN) <= ActiveHolders(db, SUPER_ADMIN) - {call.user};
      }
    } else if call.UpdateUserStatus? && call.user == u && !call.status.Active? {
      var v :| v in ActiveHolders(db, SUPER_ADMIN) - {u};
      KeepsHolder(db, call, v);
      StaysActive(db, call, v);
      assert v in ActiveHolders(after, SUPER_ADMIN);
    } else {
      KeepsHolder(db, call, u);
      assert u in ActiveHolders(after, SUPER_ADMIN);
    }
  }

  /** The guard counts suspended holders: the only active Super Admin can lose the role to one of them. */
  lemma LastActiveSuperAdminCanBeRemoved(db: Db, u: UserId, other: UserId, operatorRoles: set<string>)
    requires WellFormed(db) && ActiveHolders(db, SUPER_ADMIN) == {u} && RoleNames(db, u) != {SUPER_ADMIN}
    requires other in Holders(db, SUPER_ADMIN) && other != u && SUPER_ADMIN in operatorRoles
    ensures Outcome(db, RemoveAdminRole(u, SUPER_ADMIN, operatorRoles)).Ok?
    ensures ActiveHolders(After(db, RemoveAdminRole(u, SUPER_ADMIN, operatorRoles)), SUPER_ADMIN) == {}
  {
    hide Holders, RoleNames;
    HoldsExactly(db, u);
    assert u in ActiveHolders(db, SUPER_ADMIN);
    assert other in Holders(db, SUPER_ADMIN) - {u};
    KeepsAnActiveSuperAdminExactly(db, RemoveAdminRole(u, SUPER_ADMIN, operatorRoles));
  }

  // ------------------------------------------------------------------ whole runs

  ghost function Run(db: Db, calls: seq<Call>): Db
  {
    if calls == [] then db else After(Run(db, calls[..|calls| - 1]), calls[|calls| - 1])
  }

  ghost predicate FreshIds(db: Db, calls: seq<Call>)
  {
    forall n :: 0 <= n < |calls| ==> FreshId(Run(db, calls[..n]), calls[n])
  }

  ghost predicate NeverStrands(db: Db, calls: seq<Call>)
  {
    forall n :: 0 <= n < |calls| ==>
      !RenamesSuperAdmin(Run(db, calls[..n]), calls[n]) && !LastOneLeaves(Run(db, calls[..n]), calls[n])
  }

  ghost predicate NeverStrandsActive(db: Db, calls: seq<Call>)
  {
    forall n :: 0 <= n < |calls| ==> !StrandsActive(Run(db, calls[..n]), calls[n])
  }

  lemma Prefixes(calls: seq<Call>)
    requires calls != []
    ensures forall n :: 0 <= n < |calls| - 1 ==> calls[..|calls| - 1][..n] == calls[..n]
  {
  }

  lemma {:induction false} EveryRunIsWellFormed(db: Db, calls: seq<Call>)
    requires WellFormed(db) && FreshIds(db, calls)
    ensures WellFormed(Run(db, calls))
  {
    hide FreshId, WellFormed;
    if calls != [] {
      var n := |calls| - 1;
      Prefixes(calls);
      EveryRunIsWellFormed(db, calls[..n]);
      assert FreshId(Run(db, calls[..n]), calls[n]);
      KeepsWellFormed(Run(db, calls[..n]), calls[n]);
    }
  }

  /** Over every run of all twelve calls, in any order, none overlapping another. */
  lemma {:induction false} EveryRunKeepsASuperAdmin(db: Db, calls: seq<Call>)
    requires WellFormed(db) && FreshIds(db, calls) && NeverStrands(db, calls)
    requires Holders(db, SUPER_ADMIN) != {}
    ensures Holders(Run(db, calls), SUPER_ADMIN) != {}
  {
    hide Holders, FreshId, WellFormed, RenamesSuperAdmin, LastOneLeaves;
    if calls != [] {
      var n := |calls| - 1;
      Prefixes(calls);
      EveryRunKeepsASuperAdmin(db, calls[..n]);
      EveryRunIsWellFormed(db, calls[..n]);
      assert FreshId(Run(db, calls[..n]), calls[n]);
      assert !RenamesSuperAdmin(Run(db, calls[..n]), calls[n]) && !LastOneLeaves(Run(db, calls[..n]), calls[n]);
      KeepsASuperAdminExactly(Run(db, calls[..n]), calls[n]);
    }
  }

  lemma {:induction false} EveryRunKeepsAnActiveSuperAdmin(db: Db, calls: seq<Call>)
    requires WellFormed(db) && FreshIds(db, calls) && NeverStrandsActive(db, calls)
    requires ActiveHolders(db, SUPER_ADMIN) != {}
    ensures ActiveHolders(Run(db, calls), SUPER_ADMIN) != {}
  {
    hide ActiveHolders, FreshId, WellFormed, StrandsActive;
    if calls != [] {
      var n := |calls| - 1;
      Prefixes(calls);
      EveryRunKeepsAnActiveSuperAdmin(db, calls[..n]);
      EveryRunIsWellFormed(db, calls[..n]);
      assert FreshId(Run(db, calls[..n]), calls[n]) && !StrandsActive(Run(db, calls[..n]), calls[n]);
      KeepsAnActiveSuperAdminExactly(Run(db, calls[..n]), calls[n]);
    }
  }

  // ------------------------------------------------------------------ what takes a Super Admin

  /** The call is made for an operator who is not a Super Admin, by a service that asks. */
  predicate WithoutTheRole(call: Call)
  {
    (call.AssignRoles? || call.RemoveAdminRole? || call.UpdateUserStatus? || call.DeleteUser?)
    && SUPER_ADMIN !in call.operatorRoles
  }

  predicate InAdminTier(db: Db, u: UserId)
  {
    exists ur :: ur in db.userRoles && ur.0 == u && ur.1 in db.roles
                 && (db.roles[ur.1] == "Admin" || db.roles[ur.1] == "Super Admin" || db.roles[ur.1] == "Moderator"
                     || db.roles[ur.1] == "Support Executive")
  }

  lemma TierExactly(db: Db, u: UserId)
    ensures InAdminTier(db, u) <==> RoleNames(db, u) * ADMIN_TIER != {}
  {
    if InAdminTier(db, u) {
      var ur :| ur in db.userRoles && ur.0 == u && ur.1 in db.roles
                && (db.roles[ur.1] == "Admin" || db.roles[ur.1] == "Super Admin" || db.roles[ur.1] == "Moderator"
                    || db.roles[ur.1] == "Support Executive");
      assert db.roles[ur.1] in RoleNames(db, u) * ADMIN_TIER;
    }
    if name :| name in RoleNames(db, u) * ADMIN_TIER {
      var ur :| ur in db.userRoles && ur.0 == u && ur.1 in db.roles && db.roles[ur.1] == name;
    }
  }

  /**
   * An operator who is not a Super Admin neither makes nor unmakes one, and changes neither the status nor the
   * account of anybody in the admin tier.
   */
  lemma OthersLeaveTheTierAlone(db: Db, call: Call, u: UserId)
    requires WellFormed(db) && WithoutTheRole(call)
    ensures u in Holders(After(db, call), SUPER_ADMIN) <==> u in Holders(db, SUPER_ADMIN)
    ensures InAdminTier(db, u) && u in db.users ==> u in After(db, call).users && After(db, call).users[u] == db.users[u]
    ensures After(db, call).roles == db.roles
  {
    hide RoleNames, InAdminTier;
    TierExactly(db, u);
    HoldsExactly(db, u);
    HoldsExactly(After(db, call), u);
    if call.AssignRoles? && Outcome(db, call).Ok? && call.user == u {
      RolesGivenExactly(db, call);
    }
  }

  lemma RolesGivenExactly(db: Db, call: Call)
    requires call.AssignRoles? && Outcome(db, call).Ok?
    ensures call.user in Holders(After(db, call), SUPER_ADMIN) <==> exists r :: r in call.roleIds && db.roles[r] == SUPER_ADMIN
  {
    if r :| r in call.roleIds && db.roles[r] == SUPER_ADMIN {
      assert (call.user, r) in After(db, call).userRoles;
    }
  }

  /** So over any run of such calls the Super Admins stay who they are. */
  lemma {:induction false} OthersNeverMakeASuperAdmin(db: Db, calls: seq<Call>)
    requires WellFormed(db) && forall n :: 0 <= n < |calls| ==> WithoutTheRole(calls[n])
    ensures Holders(Run(db, calls), SUPER_ADMIN) == Holders(db, SUPER_ADMIN) && WellFormed(Run(db, calls))
  {
    hide Holders, WellFormed, InAdminTier;
    if calls != [] {
      var n := |calls| - 1;
      var before := Run(db, calls[..n]);
      OthersNeverMakeASuperAdmin(db, calls[..n]);
      KeepsWellFormed(before, calls[n]);
      forall u
        ensures u in Holders(Run(db, calls), SUPER_ADMIN) <==> u in Holders(before, SUPER_ADMIN)
      {
        OthersLeaveTheTierAlone(before, calls[n], u);
      }
    }
  }

  /** Status changes alone, however many, never leave the platform without an active Super Admin. */
  lemma {:induction false} StatusChangesKeepAnActiveSuperAdmin(db: Db, calls: seq<Call>)
    requires WellFormed(db) && ActiveHolders(db, SUPER_ADMIN) != {}
    requires forall n :: 0 <= n < |calls| ==> calls[n].UpdateUserStatus?
    ensures ActiveHolders(Run(db, calls), SUPER_ADMIN) != {}
  {
    hide ActiveHolders, WellFormed, Outcome;
    EveryRunKeepsAnActiveSuperAdmin(db, calls);
  }
}
