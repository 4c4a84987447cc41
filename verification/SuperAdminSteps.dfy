/**
 * Super Admin retention when calls interleave. Every guard reads and counts, and the write comes in a later
 * database call, on whatever the tables are by then.
 */
module SuperAdminSteps {
  import opened Basics
  import opened Schema
  import opened Rbac
  import opened RbacWrites
  import opened SuperAdmin

  // ------------------------------------------------------------------ which writes keep a Super Admin

  /** The write takes the Super Admin role from this user, or this user from the table. */
  predicate TakesFrom(db: Db, w: Write, u: UserId)
  {
    match w
    case SetRoles(user, roleIds) => user == u && !(exists r :: r in roleIds && r in db.roles && db.roles[r] == SUPER_ADMIN)
    case TakeRoles(user, taken) => user == u && exists r :: r in taken && r in db.roles && db.roles[r] == SUPER_ADMIN
    case DropUser(user) => user == u
    case _ => false
  }

  /** The write does away with the role itself. */
  predicate TakesRole(db: Db, w: Write)
  {
    || (w.DropRole? && w.role in db.roles && db.roles[w.role] == SUPER_ADMIN)
    || (w.NameRole? && w.role in db.roles && db.roles[w.role] == SUPER_ADMIN && w.name != SUPER_ADMIN)
  }

  /** Who holds the role after a write: those who did, less the one it is taken from, plus the one it is given to. */
  lemma HoldersAfter(db: Db, w: Write, u: UserId)
    requires WellFormed(db) && NewId(db, w) && Takes(db, w)
    ensures u in Holders(db, SUPER_ADMIN)
        ==> (u in Holders(Written(db, w), SUPER_ADMIN) <==> !TakesFrom(db, w, u) && !TakesRole(db, w))
    ensures !w.AddRole? && !w.NameRole? && !w.SetRoles?
        ==> Holders(Written(db, w), SUPER_ADMIN) <= Holders(db, SUPER_ADMIN)
  {
    hide WellFormed;
    var after := Written(db, w);
    if u in Holders(db, SUPER_ADMIN) {
      var ur :| ur in db.userRoles && ur.0 == u && ur.1 in db.roles && db.roles[ur.1] == SUPER_ADMIN;
      if !TakesFrom(db, w, u) && !TakesRole(db, w) {
        StillAssigned(db, w, ur);
      } else {
        NoLongerAssigned(db, w, u);
      }
    }
  }

  lemma StillAssigned(db: Db, w: Write, ur: (UserId, RoleId))
    requires NewId(db, w) && Takes(db, w) && WellFormed(db)
    requires ur in db.userRoles && ur.1 in db.roles && db.roles[ur.1] == SUPER_ADMIN
    requires !TakesFrom(db, w, ur.0) && !TakesRole(db, w)
    ensures ur.0 in Holders(Written(db, w), SUPER_ADMIN)
  {
    var after := Written(db, w);
    if w.SetRoles? && w.user == ur.0 {
      var r :| r in w.roleIds && r in db.roles && db.roles[r] == SUPER_ADMIN;
      assert (ur.0, r) in after.userRoles;
    } else {
      assert ur in after.userRoles && ur.1 in after.roles && after.roles[ur.1] == SUPER_ADMIN;
    }
  }

  lemma NoLongerAssigned(db: Db, w: Write, u: UserId)
    requires WellFormed(db) && NewId(db, w) && Takes(db, w) && (TakesFrom(db, w, u) || TakesRole(db, w))
    ensures u !in Holders(Written(db, w), SUPER_ADMIN)
  {
    var after := Written(db, w);
    forall ur | ur in after.userRoles && ur.0 == u && ur.1 in after.roles
      ensures after.roles[ur.1] != SUPER_ADMIN
    {
    }
  }

  /**
   * Whatever a call saw when it decided, its write leaves a Super Admin exactly when the role stays and
   * somebody else, or the user who gets their roles set, holds it when the write is made.
   */
  lemma WriteKeepsASuperAdminExactly(db: Db, w: Write)
    requires WellFormed(db) && NewId(db, w) && Holders(db, SUPER_ADMIN) != {}
    ensures Holders(Written(db, w), SUPER_ADMIN) != {} <==> !Strands(db, w)
  {
    hide WellFormed, Holders, TakesFrom, TakesRole;
    if Takes(db, w) {
      forall u
        ensures u in Holders(db, SUPER_ADMIN)
            ==> (u in Holders(Written(db, w), SUPER_ADMIN) <==> !TakesFrom(db, w, u) && !TakesRole(db, w))
      {
        HoldersAfter(db, w, u);
      }
      if Strands(db, w) {
        NobodyNew(db, w);
      }
    }
  }

  /** The write takes the role from everyone who holds it at the time: from the only one, or altogether. */
  ghost predicate Strands(db: Db, w: Write)
  {
    Takes(db, w) && forall u :: u in Holders(db, SUPER_ADMIN) ==> TakesFrom(db, w, u) || TakesRole(db, w)
  }

  lemma NobodyNew(db: Db, w: Write)
    requires WellFormed(db) && NewId(db, w) && Strands(db, w) && Holders(db, SUPER_ADMIN) != {}
    ensures Holders(Written(db, w), SUPER_ADMIN) == {}
  {
    var after := Written(db, w);
    var v :| v in Holders(db, SUPER_ADMIN);
    assert TakesFrom(db, w, v) || TakesRole(db, w);
    forall u
      ensures u !in Holders(after, SUPER_ADMIN)
    {
      if u in Holders(db, SUPER_ADMIN) {
        NoLongerAssigned(db, w, u);
      }
    }
  }

  /** For the guarded removal: a stale one keeps a Super Admin exactly when another one holds the role by then. */
  lemma StaleRemovalExactly(db: Db, u: UserId, taken: set<RoleId>)
    requires WellFormed(db) && u in Holders(db, SUPER_ADMIN) && RolesNamed(db, SUPER_ADMIN) <= taken
    ensures Holders(Written(db, TakeRoles(u, taken)), SUPER_ADMIN) != {} <==> Holders(db, SUPER_ADMIN) - {u} != {}
  {
    HoldsExactly(db, u);
    WriteKeepsASuperAdminExactly(db, TakeRoles(u, taken));
    if v :| v in Holders(db, SUPER_ADMIN) - {u} {
      assert !TakesFrom(db, TakeRoles(u, taken), v);
    }
  }

  // ------------------------------------------------------------------ active Super Admins

  /** The write takes away everyone who is an active Super Admin at the time. */
  ghost predicate StrandsActive(db: Db, w: Write)
  {
    && Takes(db, w)
    && forall u :: u in ActiveHolders(db, SUPER_ADMIN) ==>
         TakesFrom(db, w, u) || TakesRole(db, w) || (w.SetStatus? && w.user == u && !w.status.Active?)
  }

  lemma StatusAfter(db: Db, w: Write, u: UserId)
    requires WellFormed(db) && Takes(db, w) && u in db.users && !(w.DropUser? && w.user == u)
    ensures var after := Written(db, w);
            u in after.users && after.users[u] == if w.SetStatus? && w.user == u then w.status else db.users[u]
  {
  }

  lemma WriteKeepsAnActiveSuperAdminExactly(db: Db, w: Write)
    requires WellFormed(db) && NewId(db, w) && ActiveHolders(db, SUPER_ADMIN) != {}
    ensures ActiveHolders(Written(db, w), SUPER_ADMIN) != {} <==> !StrandsActive(db, w)
  {
    hide WellFormed, Holders, TakesFrom, TakesRole, Written;
    if !Takes(db, w) {
      NotTaken(db, w);
    } else if StrandsActive(db, w) {
      forall u
        ensures u !in ActiveHolders(Written(db, w), SUPER_ADMIN)
      {
        NobodyNewActive(db, w, u);
      }
    } else {
      var u :| u in ActiveHolders(db, SUPER_ADMIN)
            && !(TakesFrom(db, w, u) || TakesRole(db, w) || (w.SetStatus? && w.user == u && !w.status.Active?));
      HoldersAfter(db, w, u);
      DroppedIsTaken(db, w, u);
      StatusAfter(db, w, u);
      assert u in ActiveHolders(Written(db, w), SUPER_ADMIN);
    }
  }

  lemma DroppedIsTaken(db: Db, w: Write, u: UserId)
    requires !TakesFrom(db, w, u)
    ensures !(w.DropUser? && w.user == u)
  {
  }

  lemma NobodyNewActive(db: Db, w: Write, u: UserId)
    requires WellFormed(db) && NewId(db, w) && ActiveHolders(db, SUPER_ADMIN) != {} && StrandsActive(db, w)
    ensures u !in ActiveHolders(Written(db, w), SUPER_ADMIN)
  {
    hide WellFormed, Holders;
    var v :| v in ActiveHolders(db, SUPER_ADMIN);
    assert TakesFrom(db, w, v) || TakesRole(db, w) || (w.SetStatus? && w.user == v && !w.status.Active?);
    if u in Holders(db, SUPER_ADMIN) {
      HoldersAfter(db, w, u);
    } else {
      TakingGivesNobody(db, w, u);
    }
  }

  /** A write that takes the role or a user away makes nobody a holder. */
  lemma TakingGivesNobody(db: Db, w: Write, u: UserId)
    requires WellFormed(db) && Takes(db, w) && u !in Holders(db, SUPER_ADMIN)
    requires (exists v :: TakesFrom(db, w, v)) || TakesRole(db, w) || w.SetStatus?
    ensures u !in Holders(Written(db, w), SUPER_ADMIN)
  {
  }

  // ------------------------------------------------------------------ what the guards are worth later

  /** A call that passed its guards, and the tables as they were when it looked. */
  datatype Pending = Pending(call: Call, seen: Db)

  /** The role has its name still, and nobody has lost it since the call looked. */
  ghost predicate NobodyLostIt(seen: Db, now: Db)
  {
    RolesNamed(seen, SUPER_ADMIN) == RolesNamed(now, SUPER_ADMIN) && Holders(seen, SUPER_ADMIN) <= Holders(now, SUPER_ADMIN)
  }

  /** The same for those who were active, who still are. */
  ghost predicate NobodyActiveLostIt(seen: Db, now: Db)
  {
    && RolesNamed(seen, SUPER_ADMIN) == RolesNamed(now, SUPER_ADMIN)
    && ActiveHolders(seen, SUPER_ADMIN) <= ActiveHolders(now, SUPER_ADMIN)
  }

  /**
   * What a call that passed its guards leaves on the tables it saw: somebody who keeps the role, unless it renames
   * the role or is the last one leaving.
   */
  lemma GuardsSpareSomeone(seen: Db, call: Call) returns (u: UserId)
    requires Passes(seen, call) && Holders(seen, SUPER_ADMIN) != {}
    requires !RenamesSuperAdmin(seen, call) && !LastOneLeaves(seen, call)
    ensures u in Holders(seen, SUPER_ADMIN)
    ensures !TakesFrom(seen, WriteOf(seen, call), u) && !TakesRole(seen, WriteOf(seen, call))
  {
    hide Holders;
    u :| u in Holders(seen, SUPER_ADMIN);
    HoldsExactly(seen, u);
    if TakesFrom(seen, WriteOf(seen, call), u) {
      u :| u in Holders(seen, SUPER_ADMIN) - {call.user};
    }
  }

  lemma ActiveGuardsSpareSomeone(seen: Db, call: Call) returns (u: UserId)
    requires Passes(seen, call) && ActiveHolders(seen, SUPER_ADMIN) != {} && !SuperAdmin.StrandsActive(seen, call)
    ensures u in ActiveHolders(seen, SUPER_ADMIN)
    ensures var w := WriteOf(seen, call);
            !TakesFrom(seen, w, u) && !TakesRole(seen, w) && !(w.SetStatus? && w.user == u && !w.status.Active?)
  {
    hide Holders;
    u :| u in ActiveHolders(seen, SUPER_ADMIN);
    HoldsExactly(seen, u);
    var w := WriteOf(seen, call);
    if TakesFrom(seen, w, u) || (w.SetStatus? && w.user == u && !w.status.Active?) {
      u :| u in ActiveHolders(seen, SUPER_ADMIN) - {call.user};
    }
  }

  /** What a write takes depends on the tables only through which role is the Super Admin one. */
  lemma TakesTheSame(seen: Db, now: Db, w: Write, u: UserId)
    requires RolesNamed(seen, SUPER_ADMIN) == RolesNamed(now, SUPER_ADMIN)
    ensures TakesFrom(seen, w, u) == TakesFrom(now, w, u) && TakesRole(seen, w) == TakesRole(now, w)
  {
    assert forall r :: r in RolesNamed(seen, SUPER_ADMIN) <==> r in seen.roles && seen.roles[r] == SUPER_ADMIN;
    assert forall r :: r in RolesNamed(now, SUPER_ADMIN) <==> r in now.roles && now.roles[r] == SUPER_ADMIN;
  }

  /**
   * The guards hold later as long as nobody loses the role between a call's look and its write: then the write
   * leaves a Super Admin, whatever else has changed, unless the call renames the role or is the last one leaving.
   */
  lemma GuardsHoldWhileNobodyLosesIt(now: Db, p: Pending)
    requires Passes(p.seen, p.call) && Holders(p.seen, SUPER_ADMIN) != {} && NobodyLostIt(p.seen, now)
    requires !RenamesSuperAdmin(p.seen, p.call) && !LastOneLeaves(p.seen, p.call)
    ensures !Strands(now, WriteOf(p.seen, p.call))
  {
    hide Holders, RolesNamed, TakesFrom, TakesRole, WriteOf, Takes, Passes;
    var u := GuardsSpareSomeone(p.seen, p.call);
    TakesTheSame(p.seen, now, WriteOf(p.seen, p.call), u);
  }

  lemma ActiveGuardsHoldWhileNobodyLosesIt(now: Db, p: Pending)
    requires Passes(p.seen, p.call) && ActiveHolders(p.seen, SUPER_ADMIN) != {} && NobodyActiveLostIt(p.seen, now)
    requires !SuperAdmin.StrandsActive(p.seen, p.call)
    ensures !StrandsActive(now, WriteOf(p.seen, p.call))
  {
    hide ActiveHolders, RolesNamed, TakesFrom, TakesRole, WriteOf, Takes, Passes;
    var u := ActiveGuardsSpareSomeone(p.seen, p.call);
    TakesTheSame(p.seen, now, WriteOf(p.seen, p.call), u);
  }

  // ------------------------------------------------------------------ whole runs

  /** `createRole`'s second write concerns none of these tables and is not a step of its own here. */
  datatype State = State(db: Db, running: map<OpId, Pending>)

  datatype Step = Look(op: OpId, call: Call) | DoWrite(op: OpId) | Abandon(op: OpId)

  function WriteOfStep(s: State, step: Step): Write
    requires step.DoWrite? && step.op in s.running
  {
    WriteOf(s.running[step.op].seen, s.running[step.op].call)
  }

  predicate Enabled(s: State, step: Step)
  {
    match step
    case Look(op, _) => op !in s.running
    case DoWrite(op) => op in s.running && NewId(s.db, WriteOfStep(s, step))
    case Abandon(op) => op in s.running
  }

  function Next(s: State, step: Step): State
    requires Enabled(s, step)
  {
    match step
    case Look(op, call) => if Passes(s.db, call) then s.(running := s.running[op := Pending(call, s.db)]) else s
    case DoWrite(op) => State(Written(s.db, WriteOfStep(s, step)), s.running - {op})
    case Abandon(op) => s.(running := s.running - {op})
  }

  ghost predicate Path(states: seq<State>, steps: seq<Step>)
  {
    && |states| == |steps| + 1
    && forall n :: 0 <= n < |steps| ==> Enabled(states[n], steps[n]) && states[n + 1] == Next(states[n], steps[n])
  }

  /** Over every interleaving in which no write takes the last one, a Super Admin remains. */
  lemma {:induction false} InterleavedRunsKeepASuperAdmin(states: seq<State>, steps: seq<Step>, n: nat)
    requires Path(states, steps) && n < |states| && WellFormed(states[0].db) && Holders(states[0].db, SUPER_ADMIN) != {}
    requires forall m :: 0 <= m < |steps| && steps[m].DoWrite? ==> !Strands(states[m].db, WriteOfStep(states[m], steps[m]))
    ensures WellFormed(states[n].db) && Holders(states[n].db, SUPER_ADMIN) != {}
  {
    hide WellFormed, Holders, Strands, Written, WriteOf, Passes;
    if n > 0 {
      InterleavedRunsKeepASuperAdmin(states, steps, n - 1);
      var s, step := states[n - 1], steps[n - 1];
      assert states[n - 1 + 1] == Next(s, step);
      if step.DoWrite? {
        WriteKeepsWellFormed(s.db, WriteOfStep(s, step));
        WriteKeepsASuperAdminExactly(s.db, WriteOfStep(s, step));
      }
    }
  }

  /** And an active one, when no write takes the last active one. */
  lemma {:induction false} InterleavedRunsKeepAnActiveSuperAdmin(states: seq<State>, steps: seq<Step>, n: nat)
    requires Path(states, steps) && n < |states| && WellFormed(states[0].db)
    requires ActiveHolders(states[0].db, SUPER_ADMIN) != {}
    requires forall m :: 0 <= m < |steps| && steps[m].DoWrite?
                         ==> !StrandsActive(states[m].db, WriteOfStep(states[m], steps[m]))
    ensures WellFormed(states[n].db) && ActiveHolders(states[n].db, SUPER_ADMIN) != {}
  {
    hide WellFormed, ActiveHolders, StrandsActive, Written, WriteOf, Passes;
    if n > 0 {
      InterleavedRunsKeepAnActiveSuperAdmin(states, steps, n - 1);
      var s, step := states[n - 1], steps[n - 1];
      assert states[n - 1 + 1] == Next(s, step);
      if step.DoWrite? {
        WriteKeepsWellFormed(s.db, WriteOfStep(s, step));
        WriteKeepsAnActiveSuperAdminExactly(s.db, WriteOfStep(s, step));
      }
    }
  }

  /** No call renames the role or is the last one leaving, and nobody loses the role between a look and its write. */
  ghost predicate UndisturbedWrite(s: State, step: Step)
  {
    step.DoWrite? && step.op in s.running ==>
      var p := s.running[step.op];
      !RenamesSuperAdmin(p.seen, p.call) && !LastOneLeaves(p.seen, p.call) && NobodyLostIt(p.seen, s.db)
  }

  ghost predicate UndisturbedActiveWrite(s: State, step: Step)
  {
    step.DoWrite? && step.op in s.running ==>
      var p := s.running[step.op];
      !SuperAdmin.StrandsActive(p.seen, p.call) && NobodyActiveLostIt(p.seen, s.db)
  }

  /** The calls that are running looked at tables with a Super Admin and passed. */
  ghost predicate LookedAndPassed(s: State)
  {
    forall op :: op in s.running
                 ==> Passes(s.running[op].seen, s.running[op].call) && Holders(s.running[op].seen, SUPER_ADMIN) != {}
  }

  ghost predicate LookedAndPassedActive(s: State)
  {
    forall op :: op in s.running
                 ==> Passes(s.running[op].seen, s.running[op].call) && ActiveHolders(s.running[op].seen, SUPER_ADMIN) != {}
  }

  /**
   * So calls may overlap as they like, if none takes the role from anybody between another one's look and write:
   * over every such run a Super Admin remains.
   */
  lemma {:induction false} UndisturbedRunsKeepASuperAdmin(states: seq<State>, steps: seq<Step>, n: nat)
    requires Path(states, steps) && n < |states| && WellFormed(states[0].db) && states[0].running == map[]
    requires Holders(states[0].db, SUPER_ADMIN) != {}
    requires forall m :: 0 <= m < |steps| ==> UndisturbedWrite(states[m], steps[m])
    ensures WellFormed(states[n].db) && Holders(states[n].db, SUPER_ADMIN) != {} && LookedAndPassed(states[n])
  {
    hide WellFormed, Holders, Strands, Written, WriteOf, Passes, RenamesSuperAdmin, LastOneLeaves, NobodyLostIt;
    if n > 0 {
      UndisturbedRunsKeepASuperAdmin(states, steps, n - 1);
      var s, step := states[n - 1], steps[n - 1];
      assert states[n - 1 + 1] == Next(s, step) && UndisturbedWrite(s, step);
      if step.DoWrite? {
        GuardsHoldWhileNobodyLosesIt(s.db, s.running[step.op]);
        WriteKeepsWellFormed(s.db, WriteOfStep(s, step));
        WriteKeepsASuperAdminExactly(s.db, WriteOfStep(s, step));
      }
    }
  }

  lemma {:induction false} UndisturbedRunsKeepAnActiveSuperAdmin(states: seq<State>, steps: seq<Step>, n: nat)
    requires Path(states, steps) && n < |states| && WellFormed(states[0].db) && states[0].running == map[]
    requires ActiveHolders(states[0].db, SUPER_ADMIN) != {}
    requires forall m :: 0 <= m < |steps| ==> UndisturbedActiveWrite(states[m], steps[m])
    ensures WellFormed(states[n].db) && ActiveHolders(states[n].db, SUPER_ADMIN) != {} && LookedAndPassedActive(states[n])
  {
    hide WellFormed, ActiveHolders, StrandsActive, Written, WriteOf, Passes, SuperAdmin.StrandsActive, NobodyActiveLostIt;
    if n > 0 {
      UndisturbedRunsKeepAnActiveSuperAdmin(states, steps, n - 1);
      var s, step := states[n - 1], steps[n - 1];
      assert states[n - 1 + 1] == Next(s, step) && UndisturbedActiveWrite(s, step);
      if step.DoWrite? {
        ActiveGuardsHoldWhileNobodyLosesIt(s.db, s.running[step.op]);
        WriteKeepsWellFormed(s.db, WriteOfStep(s, step));
        WriteKeepsAnActiveSuperAdminExactly(s.db, WriteOfStep(s, step));
      }
    }
  }

  // ------------------------------------------------------------------ two overlapping calls leave nobody

  /** Two calls that both looked before either wrote. */
  lemma BothWrite(db: Db, a: Call, b: Call) returns (states: seq<State>, steps: seq<Step>)
    requires Passes(db, a) && Passes(db, b) && NewId(db, WriteOf(db, a))
    requires NewId(Written(db, WriteOf(db, a)), WriteOf(db, b))
    ensures Path(states, steps) && states[0] == State(db, map[])
    ensures steps == [Look(0, a), Look(1, b), DoWrite(0), DoWrite(1)]
    ensures states[4] == State(Written(Written(db, WriteOf(db, a)), WriteOf(db, b)), map[])
  {
    hide Passes, WriteOf, Written, NewId;
    var v, w := WriteOf(db, a), WriteOf(db, b);
    var p, q := Pending(a, db), Pending(b, db);
    steps := [Look(0, a), Look(1, b), DoWrite(0), DoWrite(1)];
    states := [State(db, map[]), State(db, map[0 := p]), State(db, map[0 := p, 1 := q]),
               State(Written(db, v), map[1 := q]), State(Written(Written(db, v), w), map[])];
    assert map[0 := p, 1 := q] - {0} == map[1 := q] && map[1 := q] - {1} == map[];
  }

  /** With two Super Admins, two overlapping removals each count the other one, and both go through. */
  lemma TwoRemovalsLeaveNobody(db: Db, u: UserId, v: UserId, operatorRoles: set<string>)
    returns (states: seq<State>, steps: seq<Step>)
    requires WellFormed(db) && u != v && Holders(db, SUPER_ADMIN) == {u, v} && SUPER_ADMIN in operatorRoles
    requires RoleNames(db, u) != {SUPER_ADMIN} && RoleNames(db, v) != {SUPER_ADMIN}
    ensures Path(states, steps) && states[0] == State(db, map[])
    ensures steps == [Look(0, RemoveAdminRole(u, SUPER_ADMIN, operatorRoles)),
                      Look(1, RemoveAdminRole(v, SUPER_ADMIN, operatorRoles)), DoWrite(0), DoWrite(1)]
    ensures states[4].running == map[] && Holders(states[4].db, SUPER_ADMIN) == {}
  {
    var a, b := RemoveAdminRole(u, SUPER_ADMIN, operatorRoles), RemoveAdminRole(v, SUPER_ADMIN, operatorRoles);
    RemovalPasses(db, u, v, operatorRoles);
    RemovalPasses(db, v, u, operatorRoles);
    hide WellFormed, Outcome, Holders, RoleNames;
    states, steps := BothWrite(db, a, b);
    NobodyLeft(db, u, v, RolesNamed(db, SUPER_ADMIN));
  }

  lemma RemovalPasses(db: Db, u: UserId, v: UserId, operatorRoles: set<string>)
    requires WellFormed(db) && u != v && u in Holders(db, SUPER_ADMIN) && v in Holders(db, SUPER_ADMIN)
    requires SUPER_ADMIN in operatorRoles && RoleNames(db, u) != {SUPER_ADMIN}
    ensures Outcome(db, RemoveAdminRole(u, SUPER_ADMIN, operatorRoles)).Ok?
  {
    HoldsExactly(db, u);
    HoldersAreUsers(db, u);
    assert v in Holders(db, SUPER_ADMIN) - {u};
    hide Holders, RoleNames;
  }

  lemma HoldersAreUsers(db: Db, u: UserId)
    requires WellFormed(db) && u in Holders(db, SUPER_ADMIN)
    ensures u in db.users
  {
  }

  lemma NobodyLeft(db: Db, u: UserId, v: UserId, taken: set<RoleId>)
    requires Holders(db, SUPER_ADMIN) == {u, v} && taken == RolesNamed(db, SUPER_ADMIN)
    ensures Holders(Written(Written(db, TakeRoles(u, taken)), TakeRoles(v, taken)), SUPER_ADMIN) == {}
  {
    var once := Written(db, TakeRoles(u, taken));
    var twice := Written(once, TakeRoles(v, taken));
    forall ur | ur in twice.userRoles && ur.1 in twice.roles
      ensures twice.roles[ur.1] != SUPER_ADMIN
    {
      assert db.roles[ur.1] == SUPER_ADMIN ==> ur.0 in Holders(db, SUPER_ADMIN) && ur.1 in taken;
    }
  }

  /** And two overlapping suspensions of the only two active Super Admins. */
  lemma TwoSuspensionsLeaveNobodyActive(db: Db, u: UserId, v: UserId, operatorRoles: set<string>)
    returns (states: seq<State>, steps: seq<Step>)
    requires WellFormed(db) && u != v && ActiveHolders(db, SUPER_ADMIN) == {u, v} && SUPER_ADMIN in operatorRoles
    ensures Path(states, steps) && states[0] == State(db, map[])
    ensures steps == [Look(0, UpdateUserStatus(u, Suspended, operatorRoles)),
                      Look(1, UpdateUserStatus(v, Suspended, operatorRoles)), DoWrite(0), DoWrite(1)]
    ensures states[4].running == map[] && ActiveHolders(states[4].db, SUPER_ADMIN) == {}
  {
    hide WellFormed, Holders, RoleNames;
    assert u in ActiveHolders(db, SUPER_ADMIN) && v in ActiveHolders(db, SUPER_ADMIN);
    assert v in ActiveHolders(db, SUPER_ADMIN) - {u} && u in ActiveHolders(db, SUPER_ADMIN) - {v};
    states, steps := BothWrite(db, UpdateUserStatus(u, Suspended, operatorRoles),
                               UpdateUserStatus(v, Suspended, operatorRoles));
    SameHolders(db, states[4].db);
    assert states[4].db.users == db.users[u := Suspended][v := Suspended];
    forall x
      ensures x !in ActiveHolders(states[4].db, SUPER_ADMIN)
    {
      assert x in ActiveHolders(states[4].db, SUPER_ADMIN) ==> x in ActiveHolders(db, SUPER_ADMIN);
    }
  }

  lemma SameHolders(a: Db, b: Db)
    requires a.userRoles == b.userRoles && a.roles == b.roles
    ensures Holders(a, SUPER_ADMIN) == Holders(b, SUPER_ADMIN)
  {
  }
}
