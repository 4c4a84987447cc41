/**
 * The per-user permission cache against the live tables, one database or Redis call at a time. A call reads and
 * checks, writes later, and invalidates after that; `createRole` inserts the role's grants later still, and
 * invalidates nothing; invalidating everyone first lists the keys and then deletes those; a cache load reads the
 * tables first and stores later; and a Redis error during an invalidation is logged and swallowed. All of these
 * interleave, and any call may fail on the way.
 */
module PermissionCache {
  import opened Basics
  import opened Schema
  import opened Rbac
  import opened RbacWrites

  type LoadId = nat

  /** A load that has read the tables and not yet stored what it read. */
  datatype Load = Load(user: UserId, snapshot: set<string>)

  /** A running call: about to write; about to look up the new role's permissions; about to insert its grants. */
  datatype Running =
    | Checked(call: Call, seen: Db)
    | Inserted(role: RoleId, names: seq<string>)
    | Found(role: RoleId, granted: set<PermissionId>)

  /** An invalidation to come: not begun, or about to delete the keys it has listed. */
  datatype Invalidation = Due(scope: Scope) | Listed(users: set<UserId>)

  datatype State = State(
    db: Db,
    running: map<OpId, Running>,
    cache: map<UserId, set<string>>,
    pending: seq<Invalidation>,
    loads: map<LoadId, Load>)

  datatype Step =
    | Look(op: OpId, call: Call)
    | DoWrite(op: OpId)
    | Find(op: OpId)
    | Abandon(op: OpId)
    | ListKeys(i: nat)
    | DeleteKeys(i: nat)
    | InvalidationFails(i: nat)
    | LoadReads(id: LoadId, user: UserId)
    | LoadStores(id: LoadId)
    | LoadDrops(id: LoadId)
    | Expire(user: UserId)

  /** What a running call is about to write. */
  function WriteOfRunning(r: Running): Write
    requires !r.Inserted?
  {
    match r
    case Checked(call, seen) => WriteOf(seen, call)
    case Found(role, granted) => Grant(role, granted)
  }

  /** The invalidation a running call makes after its write. */
  function ScopeOfRunning(r: Running): Scope
  {
    if r.Checked? then ScopeOf(r.call) else Nobody
  }

  predicate Enabled(s: State, step: Step)
  {
    match step
    case Look(op, _) => op !in s.running
    case DoWrite(op) => op in s.running && !s.running[op].Inserted? && NewId(s.db, WriteOfRunning(s.running[op]))
    case Find(op) => op in s.running && s.running[op].Inserted?
    case Abandon(op) => op in s.running
    case ListKeys(i) => i < |s.pending| && s.pending[i] == Due(Everyone)
    case DeleteKeys(i) => i < |s.pending| && s.pending[i] != Due(Everyone)
    case InvalidationFails(i) => i < |s.pending|
    case LoadReads(id, user) => id !in s.loads && user in s.db.users
    case LoadStores(id) => id in s.loads
    case LoadDrops(id) => id in s.loads
    case Expire(_) => true
  }

  function Without(pending: seq<Invalidation>, i: nat): seq<Invalidation>
    requires i < |pending|
  {
    pending[..i] + pending[i + 1..]
  }

  predicate Reaches(inv: Invalidation, u: UserId)
  {
    match inv
    case Due(scope) => Covers(scope, u)
    case Listed(users) => u in users
  }

  /** A write that is not taken is an error: the call ends, and invalidates nothing. */
  function AfterWrite(s: State, op: OpId): State
    requires op in s.running && !s.running[op].Inserted?
  {
    var r := s.running[op];
    if !Takes(s.db, WriteOfRunning(r)) then s.(running := s.running - {op})
    else
      s.(db := Written(s.db, WriteOfRunning(r)),
         running := if r.Checked? && r.call.CreateRole? && r.call.permissionNames != []
                    then s.running[op := Inserted(r.call.newRole, r.call.permissionNames)] else s.running - {op},
         pending := if ScopeOfRunning(r).Nobody? then s.pending else s.pending + [Due(ScopeOfRunning(r))])
  }

  function Next(s: State, step: Step): State
    requires Enabled(s, step)
  {
    match step
    case Look(op, call) => if Passes(s.db, call) then s.(running := s.running[op := Checked(call, s.db)]) else s
    case DoWrite(op) => AfterWrite(s, op)
    case Find(op) =>
      var r := s.running[op];
      s.(running := s.running[op := Found(r.role, PermissionsNamed(s.db, r.names))])
    case Abandon(op) => s.(running := s.running - {op})
    case ListKeys(i) => s.(pending := s.pending[i := Listed(s.cache.Keys)])
    case DeleteKeys(i) =>
      s.(cache := map u | u in s.cache && !Reaches(s.pending[i], u) :: s.cache[u], pending := Without(s.pending, i))
    case InvalidationFails(i) => s.(pending := Without(s.pending, i))
    case LoadReads(id, user) => s.(loads := s.loads[id := Load(user, Effective(s.db, user))])
    case LoadStores(id) => s.(cache := s.cache[s.loads[id].user := s.loads[id].snapshot], loads := s.loads - {id})
    case LoadDrops(id) => s.(loads := s.loads - {id})
    case Expire(user) => s.(cache := s.cache - {user})
  }

  // ------------------------------------------------------------------ what the steps do and leave alone

  /** A call goes on to its write exactly when it passes its guards, and looking changes nothing else. */
  lemma LookingStartsExactly(s: State, op: OpId, call: Call)
    requires Enabled(s, Look(op, call))
    ensures var next := Next(s, Look(op, call));
            && next == s.(running := next.running)
            && (op in next.running <==> Passes(s.db, call))
            && (op in next.running ==> next.running == s.running[op := Checked(call, s.db)])
  {
  }

  /** A write that the tables refuse ends the call and nothing else; one they take leaves the cache and loads alone. */
  lemma WritingExactly(s: State, op: OpId)
    requires Enabled(s, DoWrite(op))
    ensures var next, r := Next(s, DoWrite(op)), s.running[op];
            && next.cache == s.cache && next.loads == s.loads && (forall o :: o in s.running && o != op ==> o in next.running)
            && (!Takes(s.db, WriteOfRunning(r)) ==> next == s.(running := s.running - {op}))
            && (Takes(s.db, WriteOfRunning(r)) ==>
                  next.db == Written(s.db, WriteOfRunning(r))
                  && (op in next.running <==> r.Checked? && r.call.CreateRole? && r.call.permissionNames != []))
  {
    hide Written, Takes, WriteOf;
  }

  /** Deleting keys removes exactly the entries it reaches; expiry removes exactly one. */
  lemma DeletingExactly(s: State, i: nat, u: UserId)
    requires Enabled(s, DeleteKeys(i))
    ensures var next := Next(s, DeleteKeys(i));
            && next == s.(cache := next.cache, pending := next.pending) && |next.pending| == |s.pending| - 1
            && (u in next.cache <==>
                  u in s.cache && match s.pending[i]
                                  case Due(scope) => scope != Only(u)
                                  case Listed(users) => u !in users)
            && (u in next.cache ==> next.cache[u] == s.cache[u])
    ensures Next(s, Expire(u)) == s.(cache := s.cache - {u})
  {
  }

  /** Listing the keys is all the first half of dropping everybody does; a failure drops the invalidation alone. */
  lemma ListingExactly(s: State, i: nat)
    requires i < |s.pending|
    ensures s.pending[i] == Due(Everyone)
        ==> Next(s, ListKeys(i)) == s.(pending := s.pending[..i] + [Listed(s.cache.Keys)] + s.pending[i + 1..])
    ensures Next(s, InvalidationFails(i)) == s.(pending := s.pending[..i] + s.pending[i + 1..])
  {
  }

  /** Only storing puts anything into the cache, and it puts in what the load read when it read. */
  lemma LoadingExactly(s: State, id: LoadId, u: UserId)
    requires Enabled(s, LoadReads(id, u))
    ensures var read := Next(s, LoadReads(id, u));
            && read == s.(loads := read.loads) && Enabled(read, LoadStores(id))
            && Next(read, LoadStores(id)) == s.(cache := s.cache[u := Effective(s.db, u)])
            && Next(read, LoadDrops(id)) == s
  {
    assert s.loads[id := Load(u, Effective(s.db, u))] - {id} == s.loads;
  }

  // ------------------------------------------------------------------ the invariant

  ghost predicate Covered(pending: seq<Invalidation>, u: UserId)
  {
    exists i :: 0 <= i < |pending| && Reaches(pending[i], u)
  }

  ghost predicate StaleEntry(s: State, u: UserId)
  {
    u in s.cache && s.cache[u] != Effective(s.db, u)
  }

  ghost predicate StaleLoad(s: State, id: LoadId)
  {
    id in s.loads && s.loads[id].snapshot != Effective(s.db, s.loads[id].user)
  }

  /** What is cached for a user is the live join, unless an invalidation that reaches the user is still to come. */
  ghost predicate EntryOk(s: State, u: UserId)
  {
    StaleEntry(s, u) ==> Covered(s.pending, u)
  }

  /** The same for what a load is about to store. */
  ghost predicate LoadOk(s: State, id: LoadId)
  {
    StaleLoad(s, id) ==> Covered(s.pending, s.loads[id].user)
  }

  ghost predicate Coherent(s: State)
  {
    forall u :: EntryOk(s, u)
  }

  ghost predicate Inv(s: State)
  {
    WellFormed(s.db) && Coherent(s) && forall id :: LoadOk(s, id)
  }

  /**
   * The write changes a user's permissions and its call will not invalidate them: the late grants of a new role
   * that the user holds by then, if one of them is new to the user; or the user's own account going.
   */
  ghost predicate Unannounced(db: Db, r: Running, u: UserId)
    requires !r.Inserted?
  {
    && Takes(db, WriteOfRunning(r))
    && match r
       case Checked(call, _) => call.DeleteOwnAccount? && call.user == u && Effective(db, u) != {}
       case Found(role, granted) =>
         (u, role) in db.userRoles && exists p :: p in granted && db.permissions[p] !in Effective(db, u)
  }

  ghost predicate Loading(s: State, u: UserId)
  {
    exists id :: id in s.loads && s.loads[id].user == u
  }

  /** Something stale would be stored with no invalidation to come. */
  ghost predicate LoadLeftBehind(s: State, pending: seq<Invalidation>)
  {
    exists id :: StaleLoad(s, id) && !Covered(pending, s.loads[id].user)
  }

  ghost predicate EntryLeftBehind(s: State, pending: seq<Invalidation>)
  {
    exists u :: StaleEntry(s, u) && !Covered(pending, u)
  }

  /**
   * The step goes wrong: an unannounced write meets a user who is cached or being loaded, with no invalidation to
   * come; or an invalidation has listed its keys, runs or fails while an open load, or when it fails an entry,
   * is stale and no other invalidation will reach it.
   */
  ghost predicate Breaks(s: State, step: Step)
    requires Enabled(s, step)
  {
    match step
    case DoWrite(op) =>
      exists u :: Unannounced(s.db, s.running[op], u) && !Covered(s.pending, u) && (u in s.cache || Loading(s, u))
    case ListKeys(i) => LoadLeftBehind(s, Next(s, step).pending)
    case DeleteKeys(i) => LoadLeftBehind(s, Next(s, step).pending)
    case InvalidationFails(i) => LoadLeftBehind(s, Next(s, step).pending) || EntryLeftBehind(s, Next(s, step).pending)
    case _ => false
  }

  lemma CoveredWithout(pending: seq<Invalidation>, i: nat, u: UserId)
    requires i < |pending|
    ensures Covered(pending, u) <==> Reaches(pending[i], u) || Covered(Without(pending, i), u)
  {
    var rest := Without(pending, i);
    if j :| 0 <= j < |pending| && Reaches(pending[j], u) && j != i {
      assert Reaches(rest[if j < i then j else j - 1], u);
    }
    if j :| 0 <= j < |rest| && Reaches(rest[j], u) {
      assert Reaches(pending[if j < i then j else j + 1], u);
    }
  }

  lemma CoveredUpdated(pending: seq<Invalidation>, i: nat, inv: Invalidation, u: UserId)
    requires i < |pending|
    ensures Covered(pending[i := inv], u) <==> Reaches(inv, u) || Covered(Without(pending, i), u)
  {
    CoveredWithout(pending[i := inv], i, u);
    assert Without(pending[i := inv], i) == Without(pending, i);
  }

  lemma CoveredAppend(pending: seq<Invalidation>, inv: Invalidation, u: UserId)
    ensures Covered(pending + [inv], u) <==> Reaches(inv, u) || Covered(pending, u)
  {
    CoveredWithout(pending + [inv], |pending|, u);
    assert Without(pending + [inv], |pending|) == pending;
  }

  // ------------------------------------------------------------------ what a write does to it

  /** A write changes the permissions of a user its call will not invalidate exactly when it is unannounced. */
  lemma UnannouncedExactly(db: Db, r: Running, u: UserId)
    requires WellFormed(db) && !r.Inserted? && NewId(db, WriteOfRunning(r)) && !Covers(ScopeOfRunning(r), u)
    ensures Effective(Written(db, WriteOfRunning(r)), u) != Effective(db, u) <==> Unannounced(db, r, u)
  {
    hide Effective, WellFormed, Takes;
    var w := WriteOfRunning(r);
    if !Takes(db, w) {
      NotTaken(db, w);
    } else if r.Found? && (u, r.role) in db.userRoles {
      GrantChangesExactly(db, r.role, r.granted, u);
    } else if r.Checked? && r.call.DeleteOwnAccount? && r.call.user == u {
      GoneHasNothing(db, u);
    } else {
      OthersAreNotConcerned(db, w, u);
    }
  }

  lemma WriteKeepsInvExactly(s: State, op: OpId)
    requires Inv(s) && Enabled(s, DoWrite(op))
    ensures Inv(AfterWrite(s, op)) <==> !Breaks(s, DoWrite(op))
  {
    hide Effective, WellFormed, Covered, Takes, Written, WriteOfRunning, ScopeOfRunning, Unannounced, NewId;
    var next, r := AfterWrite(s, op), s.running[op];
    WriteKeepsWellFormed(s.db, WriteOfRunning(r));
    NotTaken(s.db, WriteOfRunning(r));
    forall u
      ensures Covered(next.pending, u) || (Effective(next.db, u) != Effective(s.db, u) <==> Unannounced(s.db, r, u))
      ensures Covered(s.pending, u) ==> Covered(next.pending, u)
      ensures Unannounced(s.db, r, u) && Covered(next.pending, u) ==> Covered(s.pending, u)
    {
      AnnouncedOrCovered(s, op, u);
    }
    if Breaks(s, DoWrite(op)) {
      var u :| Unannounced(s.db, r, u) && !Covered(s.pending, u) && (u in s.cache || Loading(s, u));
      if u in s.cache {
        assert EntryOk(s, u) && !EntryOk(next, u);
      } else {
        var id :| id in s.loads && s.loads[id].user == u;
        assert LoadOk(s, id) && !LoadOk(next, id);
      }
    } else {
      forall u
        ensures EntryOk(next, u)
      {
        assert EntryOk(s, u);
      }
      forall id
        ensures LoadOk(next, id)
      {
        assert LoadOk(s, id);
      }
    }
  }

  lemma AnnouncedOrCovered(s: State, op: OpId, u: UserId)
    requires WellFormed(s.db) && Enabled(s, DoWrite(op))
    ensures var next, r := AfterWrite(s, op), s.running[op];
            && (Covered(next.pending, u) || (Effective(next.db, u) != Effective(s.db, u) <==> Unannounced(s.db, r, u)))
            && (Covered(s.pending, u) ==> Covered(next.pending, u))
            && (Unannounced(s.db, r, u) && Covered(next.pending, u) ==> Covered(s.pending, u))
  {
    hide Effective, WellFormed, Covered, Takes, Written, NewId;
    var r := s.running[op];
    NotTaken(s.db, WriteOfRunning(r));
    CoveredAppend(s.pending, Due(ScopeOfRunning(r)), u);
    if !Covers(ScopeOfRunning(r), u) {
      UnannouncedExactly(s.db, r, u);
    }
  }

  /**
   * The late grants of a new role break it exactly when they are inserted while somebody holds the role who is
   * cached or being loaded, with no invalidation to come, and does not have all of the permissions already.
   */
  lemma LateGrantBreaksExactly(s: State, op: OpId)
    requires Inv(s) && op in s.running && s.running[op].Found?
    ensures var r := s.running[op];
            Inv(AfterWrite(s, op)) <==>
              !(&& Takes(s.db, Grant(r.role, r.granted))
                && exists u, p :: (u, r.role) in s.db.userRoles && p in r.granted
                                  && s.db.permissions[p] !in Effective(s.db, u)
                                  && !Covered(s.pending, u) && (u in s.cache || Loading(s, u)))
  {
    hide Inv, Effective, Covered, Loading, Takes;
    WriteKeepsInvExactly(s, op);
  }

  // ------------------------------------------------------------------ what the other steps do to it

  lemma InvalidationKeepsInvExactly(s: State, step: Step)
    requires Inv(s) && Enabled(s, step) && (step.ListKeys? || step.DeleteKeys? || step.InvalidationFails?)
    ensures Inv(Next(s, step)) <==> !Breaks(s, step)
  {
    hide Effective, WellFormed, Covered;
    var next := Next(s, step);
    forall u
      ensures Covered(s.pending, u) <==> Reaches(s.pending[step.i], u) || Covered(Without(s.pending, step.i), u)
      ensures step.ListKeys? ==> (Covered(next.pending, u) <==> u in s.cache || Covered(Without(s.pending, step.i), u))
    {
      CoveredWithout(s.pending, step.i, u);
      CoveredUpdated(s.pending, step.i, Listed(s.cache.Keys), u);
    }
    if !Breaks(s, step) {
      forall u
        ensures EntryOk(next, u)
      {
        assert EntryOk(s, u);
      }
      forall id
        ensures LoadOk(next, id)
      {
        assert LoadOk(s, id);
      }
    } else if id :| StaleLoad(s, id) && !Covered(next.pending, s.loads[id].user) {
      assert !LoadOk(next, id);
    } else {
      var u :| StaleEntry(s, u) && !Covered(next.pending, u);
      assert !EntryOk(next, u);
    }
  }

  lemma OtherStepKeepsInv(s: State, step: Step)
    requires Inv(s) && Enabled(s, step)
    requires !step.DoWrite? && !step.ListKeys? && !step.DeleteKeys? && !step.InvalidationFails?
    ensures Inv(Next(s, step))
  {
    hide Effective, WellFormed, Covered, Passes;
    var next := Next(s, step);
    if step.LoadStores? {
      assert LoadOk(s, step.id);
    }
    forall u
      ensures EntryOk(next, u)
    {
      assert EntryOk(s, u);
    }
    forall id
      ensures LoadOk(next, id)
    {
      assert LoadOk(s, id);
    }
  }

  /** One step keeps the invariant exactly when it does not go wrong. */
  lemma StepKeepsInvExactly(s: State, step: Step)
    requires Inv(s) && Enabled(s, step)
    ensures Inv(Next(s, step)) <==> !Breaks(s, step)
  {
    hide Inv;
    match step
    case DoWrite(op) => WriteKeepsInvExactly(s, op);
    case ListKeys(_) => InvalidationKeepsInvExactly(s, step);
    case DeleteKeys(_) => InvalidationKeepsInvExactly(s, step);
    case InvalidationFails(_) => InvalidationKeepsInvExactly(s, step);
    case _ => OtherStepKeepsInv(s, step);
  }

  // ------------------------------------------------------------------ whole runs

  ghost predicate Leads(s: State, step: Step, next: State)
  {
    Enabled(s, step) && next == Next(s, step)
  }

  ghost predicate Path(states: seq<State>, steps: seq<Step>)
  {
    && |states| == |steps| + 1
    && forall n :: 0 <= n < |steps| ==> Enabled(states[n], steps[n]) && states[n + 1] == Next(states[n], steps[n])
  }

  ghost predicate NothingBreaks(states: seq<State>, steps: seq<Step>)
    requires Path(states, steps)
  {
    forall n :: 0 <= n < |steps| ==> !Breaks(states[n], steps[n])
  }

  lemma {:induction false} PathKeepsInv(states: seq<State>, steps: seq<Step>, n: nat)
    requires Path(states, steps) && n < |states| && Inv(states[0]) && NothingBreaks(states, steps)
    ensures Inv(states[n])
  {
    hide Inv, Breaks, Enabled;
    if n > 0 {
      PathKeepsInv(states, steps, n - 1);
      StepKeepsInvExactly(states[n - 1], steps[n - 1]);
      assert states[n - 1 + 1] == Next(states[n - 1], steps[n - 1]);
    }
  }

  /**
   * In every run in which no step goes wrong: a cached entry that differs from the live join has an invalidation
   * reaching it still to come, and once none is pending every entry is the live join.
   */
  lemma StaleOnlyWhilePending(states: seq<State>, steps: seq<Step>, n: nat, u: UserId)
    requires Path(states, steps) && n < |states| && Inv(states[0]) && NothingBreaks(states, steps)
    requires u in states[n].cache
    ensures states[n].cache[u] == Effective(states[n].db, u) || Covered(states[n].pending, u)
    ensures states[n].pending == [] ==> states[n].cache[u] == Effective(states[n].db, u)
  {
    PathKeepsInv(states, steps, n);
    assert EntryOk(states[n], u);
  }

  // ------------------------------------------------------------------ what callers can see to

  /** The call has inserted this role and not yet its grants. */
  predicate Unfinished(r: Running, role: RoleId)
  {
    !r.Checked? && r.role == role
  }

  /** Nobody holds a role whose grants are still to come. */
  ghost predicate GrantsComeFirst(s: State)
  {
    forall op, ur :: op in s.running && ur in s.db.userRoles ==> !Unfinished(s.running[op], ur.1)
  }

  /** No role is assigned whose grants are still to come, and no account goes that is cached or being loaded. */
  ghost predicate WritesInTurn(s: State, call: Call)
  {
    match call
    case AssignRoles(_, roleIds, _) => forall op, r :: op in s.running && r in roleIds ==> !Unfinished(s.running[op], r)
    case DeleteOwnAccount(u, _, _) => u !in s.cache && !Loading(s, u)
    case _ => true
  }

  /**
   * Enough for coherence, and visible to callers: nobody is assigned a role before the `createRole` that makes it
   * has returned; no invalidation fails, and none lists or deletes keys during a load of a user it reaches; and
   * nobody deletes their own account while their permissions are cached or being loaded.
   */
  ghost predicate NoOverlap(s: State, step: Step)
    requires Enabled(s, step)
  {
    match step
    case DoWrite(op) => s.running[op].Checked? ==> WritesInTurn(s, s.running[op].call)
    case ListKeys(i) => s.loads == map[]
    case DeleteKeys(i) => forall id :: id in s.loads ==> !Reaches(s.pending[i], s.loads[id].user)
    case InvalidationFails(_) => false
    case _ => true
  }

  lemma NoOverlapIsEnough(s: State, step: Step)
    requires Inv(s) && GrantsComeFirst(s) && Enabled(s, step) && NoOverlap(s, step)
    ensures !Breaks(s, step)
    ensures GrantsComeFirst(Next(s, step))
  {
    hide Effective, WellFormed;
    if step.DoWrite? {
      WriteWithoutOverlap(s, step.op);
    } else if step.DeleteKeys? {
      forall id | StaleLoad(s, id)
        ensures Covered(Without(s.pending, step.i), s.loads[id].user)
      {
        assert LoadOk(s, id);
        CoveredWithout(s.pending, step.i, s.loads[id].user);
      }
    }
  }

  lemma WriteWithoutOverlap(s: State, op: OpId)
    requires Inv(s) && GrantsComeFirst(s) && Enabled(s, DoWrite(op)) && NoOverlap(s, DoWrite(op))
    ensures !Breaks(s, DoWrite(op))
    ensures GrantsComeFirst(AfterWrite(s, op))
  {
    hide Effective, Coherent, Passes;
    var r := s.running[op];
    var w := WriteOfRunning(r);
    forall ur | ur in Written(s.db, w).userRoles
      ensures ur in s.db.userRoles || (r.Checked? && r.call.AssignRoles? && ur.1 in r.call.roleIds)
    {
    }
  }

  /**
   * So every run in which callers see to that is coherent: an entry is stale only while an invalidation that
   * reaches it is still to come.
   */
  lemma CoherentWithoutOverlap(states: seq<State>, steps: seq<Step>, n: nat, u: UserId)
    requires Path(states, steps) && n < |states| && Inv(states[0]) && GrantsComeFirst(states[0])
    requires forall m :: 0 <= m < |steps| ==> NoOverlap(states[m], steps[m])
    requires u in states[n].cache
    ensures states[n].cache[u] == Effective(states[n].db, u) || Covered(states[n].pending, u)
    ensures states[n].pending == [] ==> states[n].cache[u] == Effective(states[n].db, u)
  {
    NoOverlapKeepsInv(states, steps, n);
    assert EntryOk(states[n], u);
  }

  lemma {:induction false} NoOverlapKeepsInv(states: seq<State>, steps: seq<Step>, n: nat)
    requires Path(states, steps) && n < |states| && Inv(states[0]) && GrantsComeFirst(states[0])
    requires forall m :: 0 <= m < |steps| ==> NoOverlap(states[m], steps[m])
    ensures Inv(states[n]) && GrantsComeFirst(states[n])
  {
    hide Inv, NoOverlap, Breaks, Enabled, GrantsComeFirst;
    if n > 0 {
      NoOverlapKeepsInv(states, steps, n - 1);
      NoOverlapIsEnough(states[n - 1], steps[n - 1]);
      StepKeepsInvExactly(states[n - 1], steps[n - 1]);
      assert states[n - 1 + 1] == Next(states[n - 1], steps[n - 1]);
    }
  }

  // ------------------------------------------------------------------ runs that go wrong

  /** A failed invalidation of a stale entry leaves it there, with nothing to come. */
  lemma FailedInvalidationLeavesStaleEntry(s: State, i: nat, u: UserId)
    requires Inv(s) && i < |s.pending| && StaleEntry(s, u) && !Covered(Without(s.pending, i), u)
    ensures var after := Next(s, InvalidationFails(i));
            StaleEntry(after, u) && !Covered(after.pending, u) && !Coherent(after)
  {
    assert !EntryOk(Next(s, InvalidationFails(i)), u);
  }

  /**
   * When an invalidation overtakes a stale load, that load then stores an entry that is not the live join, with
   * no invalidation to come. It stays until it expires.
   */
  lemma OvertakenLoadLeavesStaleEntry(s: State, i: nat, id: LoadId)
    requires Inv(s) && Enabled(s, DeleteKeys(i)) && StaleLoad(s, id)
    requires !Covered(Without(s.pending, i), s.loads[id].user)
    ensures var after := Next(Next(s, DeleteKeys(i)), LoadStores(id));
            var u := s.loads[id].user;
            StaleEntry(after, u) && !Covered(after.pending, u) && !Coherent(after)
  {
    var after := Next(Next(s, DeleteKeys(i)), LoadStores(id));
    assert !EntryOk(after, s.loads[id].user);
  }

  function Quiet(db: Db, cache: map<UserId, set<string>>): State
  {
    State(db, map[], cache, [], map[])
  }

  lemma QuietIsCoherent(db: Db)
    requires WellFormed(db)
    ensures Inv(Quiet(db, map[])) && GrantsComeFirst(Quiet(db, map[]))
  {
  }

  /** A call runs through its check and its first write. */
  function Called(s: State, op: OpId, call: Call): State
  {
    s.(db := Written(s.db, WriteOf(s.db, call)),
       running := if call.CreateRole? && call.permissionNames != []
                  then s.running[op := Inserted(call.newRole, call.permissionNames)] else s.running,
       pending := if ScopeOf(call).Nobody? then s.pending else s.pending + [Due(ScopeOf(call))])
  }

  lemma CallLeads(s: State, op: OpId, call: Call)
    requires op !in s.running && Passes(s.db, call) && NewId(s.db, WriteOf(s.db, call)) && Takes(s.db, WriteOf(s.db, call))
    ensures var checked := s.(running := s.running[op := Checked(call, s.db)]);
            && Leads(s, Look(op, call), checked) && Leads(checked, DoWrite(op), Called(s, op, call))
            && NoOverlap(s, Look(op, call)) && (call.CreateRole? ==> NoOverlap(checked, DoWrite(op)))
  {
    hide Passes, WriteOf, Written, Takes, NewId, ScopeOf;
    assert s.running[op := Checked(call, s.db)] - {op} == s.running;
  }

  lemma GrantLeads(s: State, op: OpId, role: RoleId, names: seq<string>)
    requires op in s.running && s.running[op] == Inserted(role, names)
    requires Takes(s.db, Grant(role, PermissionsNamed(s.db, names)))
    ensures var grant := Grant(role, PermissionsNamed(s.db, names));
            var found := s.(running := s.running[op := Found(role, grant.granted)]);
            && Leads(s, Find(op), found)
            && Leads(found, DoWrite(op), s.(db := Written(s.db, grant), running := s.running - {op}))
            && NoOverlap(s, Find(op)) && NoOverlap(found, DoWrite(op))
  {
    hide PermissionsNamed, Written, Takes;
    assert s.running[op := Found(role, PermissionsNamed(s.db, names))] - {op} == s.running - {op};
  }

  lemma LoadLeads(s: State, u: UserId)
    requires u in s.db.users && s.loads == map[]
    ensures var reading := s.(loads := map[0 := Load(u, Effective(s.db, u))]);
            && Leads(s, LoadReads(0, u), reading)
            && Leads(reading, LoadStores(0), s.(cache := s.cache[u := Effective(s.db, u)]))
            && NoOverlap(s, LoadReads(0, u)) && NoOverlap(reading, LoadStores(0))
  {
    hide Effective;
    assert map[0 := Load(u, Effective(s.db, u))] - {0} == map[];
  }

  /** Invalidating an empty cache. */
  lemma InvalidationLeads(s: State, scope: Scope)
    requires s.cache == map[] && s.pending == []
    ensures var due, listed := s.(pending := [Due(scope)]), s.(pending := [Listed({})]);
            if scope.Everyone? then Leads(due, ListKeys(0), listed) && Leads(listed, DeleteKeys(0), s)
            else Leads(due, DeleteKeys(0), s) && (s.loads == map[] ==> NoOverlap(due, DeleteKeys(0)))
  {
    assert Without([Due(scope)], 0) == [] && Without([Listed({})], 0) == [] && s.cache.Keys == {};
  }

  lemma LoadStored(s: State, u: UserId, snapshot: set<string>)
    requires s.loads == map[0 := Load(u, snapshot)]
    ensures Leads(s, LoadStores(0), s.(cache := s.cache[u := snapshot], loads := map[]))
  {
    assert s.loads - {0} == map[];
  }

  /** A load that reads before the call and stores after it. */
  lemma LoadAroundCall(db: Db, call: Call, u: UserId) returns (states: seq<State>, steps: seq<Step>)
    requires WellFormed(db) && FreshId(db, call) && u in db.users && Outcome(db, call).Ok? && !call.CreateRole?
    ensures Path(states, steps) && states[0] == Quiet(db, map[])
    ensures states[|steps|] == Quiet(After(db, call), map[u := Effective(db, u)])
  {
    hide Effective, Outcome, FreshId, After, WellFormed, Passes, WriteOf, Written, Takes, NewId, Enabled, Next, ScopeOf;
    UninterruptedCall(db, call);
    var s0, after, scope := Quiet(db, map[]), After(db, call), ScopeOf(call);
    var s1 := s0.(loads := map[0 := Load(u, Effective(db, u))]);
    var s2, s3, s4 := s1.(running := map[0 := Checked(call, db)]), Called(s1, 0, call), s1.(db := after);
    var s5, listed := Quiet(after, map[u := Effective(db, u)]), s4.(pending := [Listed({})]);
    LoadLeads(s0, u);
    CallLeads(s1, 0, call);
    InvalidationLeads(s4, scope);
    LoadStored(s4, u, Effective(db, u));
    assert s3 == s4.(pending := if scope.Nobody? then [] else [Due(scope)]);
    match scope
    case Nobody =>
      steps, states := [LoadReads(0, u), Look(0, call), DoWrite(0), LoadStores(0)], [s0, s1, s2, s3, s5];
    case Only(_) =>
      steps := [LoadReads(0, u), Look(0, call), DoWrite(0), DeleteKeys(0), LoadStores(0)];
      states := [s0, s1, s2, s3, s4, s5];
    case Everyone =>
      steps := [LoadReads(0, u), Look(0, call), DoWrite(0), ListKeys(0), DeleteKeys(0), LoadStores(0)];
      states := [s0, s1, s2, s3, listed, s4, s5];
  }

  /**
   * Such a run exists for every call that changes somebody's permissions: a load reads, the call runs to its end,
   * its invalidation (if it has one) included, and the load stores what it read before.
   */
  lemma RaceLeavesStaleEntry(db: Db, call: Call, u: UserId) returns (states: seq<State>, steps: seq<Step>)
    requires WellFormed(db) && FreshId(db, call) && u in db.users
    requires Effective(After(db, call), u) != Effective(db, u)
    ensures Path(states, steps) && states[0] == Quiet(db, map[]) && Inv(states[0])
    ensures var last := states[|steps|];
            last == Quiet(After(db, call), map[u := Effective(db, u)]) && !Coherent(last)
  {
    hide Effective, Outcome, WellFormed, FreshId, LeavesWithPermissions;
    QuietIsCoherent(db);
    if !Covers(ScopeOf(call), u) {
      ChangesAreCovered(db, call, u);
      assert call.DeleteOwnAccount? by { LeavingIsOwn(db, call, u); }
    }
    states, steps := LoadAroundCall(db, call, u);
    assert !EntryOk(states[|steps|], u);
  }

  lemma LeavingIsOwn(db: Db, call: Call, u: UserId)
    ensures LeavesWithPermissions(db, call, u) ==> call.DeleteOwnAccount?
  {
  }

  /** And a call that changes permissions exists: a moderator's role loses its only permission. */
  lemma SomeCallChangesPermissions()
    ensures exists db: Db, call: Call, u: UserId ::
              WellFormed(db) && FreshId(db, call) && u in db.users && Effective(After(db, call), u) != Effective(db, u)
  {
    var db := Db(map[0 := Active], map[0 := "Moderator"], map[0 := "moderate:job"], {(0, 0)}, {(0, 0)});
    var call := AssignPermissions(0, Some([]), []);
    assert (0, 0) in db.userRoles && (0, 0) in db.rolePermissions;
    assert db.permissions[0] in Effective(db, 0);
    assert Effective(After(db, call), 0) == {};
  }

  /** A role that is assigned before its grants are inserted: what the tables are meanwhile. */
  lemma AssignedThenGranted(db: Db, create: Call, assign: Call, p: PermissionId)
    requires WellFormed(db) && create.CreateRole? && FreshId(db, create) && Outcome(db, create).Ok?
    requires assign.AssignRoles? && create.newRole in assign.roleIds
    requires var inserted := Written(db, WriteOf(db, create));
             && Outcome(inserted, assign).Ok?
             && p in db.permissions && db.permissions[p] in create.permissionNames
             && db.permissions[p] !in Effective(After(inserted, assign), assign.user)
    ensures var inserted := Written(db, WriteOf(db, create));
            var joined := Written(inserted, WriteOf(inserted, assign));
            var grant := Grant(create.newRole, PermissionsNamed(joined, create.permissionNames));
            && Passes(db, create) && NewId(db, WriteOf(db, create)) && Takes(db, WriteOf(db, create))
            && Passes(inserted, assign) && NewId(inserted, WriteOf(inserted, assign))
            && Takes(inserted, WriteOf(inserted, assign))
            && assign.user in joined.users && NewId(joined, grant) && Takes(joined, grant)
            && db.permissions[p] !in Effective(joined, assign.user)
            && db.permissions[p] in Effective(Written(joined, grant), assign.user)
  {
    var inserted := Written(db, WriteOf(db, create));
    var joined := Written(inserted, WriteOf(inserted, assign));
    var found := PermissionsNamed(joined, create.permissionNames);
    hide Effective;
    UninterruptedCall(db, create);
    WriteKeepsWellFormed(db, WriteOf(db, create));
    UninterruptedCall(inserted, assign);
    WriteKeepsWellFormed(inserted, WriteOf(inserted, assign));
    assert p in found && (assign.user, create.newRole) in joined.userRoles;
    GrantGives(joined, create.newRole, found, assign.user, db.permissions[p]);
  }

  /**
   * A new role is not safe from this because it is new: between its insertion and that of its grants it can be
   * assigned, and the user's permissions loaded and stored. Every step but the assignment is as it should be, and
   * nothing fails; the entry lacks what the grants then give, with nothing to come.
   */
  lemma GrantAfterAssignment(db: Db, create: Call, assign: Call, p: PermissionId)
    returns (states: seq<State>, steps: seq<Step>)
    requires WellFormed(db) && create.CreateRole? && FreshId(db, create) && Outcome(db, create).Ok?
    requires assign.AssignRoles? && create.newRole in assign.roleIds
    requires var inserted := Written(db, WriteOf(db, create));
             && Outcome(inserted, assign).Ok?
             && p in db.permissions && db.permissions[p] in create.permissionNames
             && db.permissions[p] !in Effective(After(inserted, assign), assign.user)
    ensures Path(states, steps) && states[0] == Quiet(db, map[]) && Inv(states[0]) && GrantsComeFirst(states[0])
    ensures steps == [Look(0, create), DoWrite(0), Look(1, assign), DoWrite(1), DeleteKeys(0),
                      LoadReads(0, assign.user), LoadStores(0), Find(0), DoWrite(0)]
    ensures forall m :: 0 <= m < |steps| && m != 3 ==> NoOverlap(states[m], steps[m])
    ensures var last := states[9];
            && last == Quiet(last.db, last.cache) && StaleEntry(last, assign.user) && !Coherent(last)
            && db.permissions[p] in Effective(last.db, assign.user) && db.permissions[p] !in last.cache[assign.user]
  {
    hide Effective, Outcome, WellFormed, FreshId, Written, WriteOf, After, Passes, PermissionsNamed, Takes, NewId;
    hide NoOverlap, Enabled, Next;
    AssignedThenGranted(db, create, assign, p);
    QuietIsCoherent(db);
    var r, u, names := create.newRole, assign.user, create.permissionNames;
    var s0 := Quiet(db, map[]);
    var s2 := Called(s0, 0, create);
    var s4 := Called(s2, 1, assign);
    var s5 := s4.(pending := []);
    var s7 := s5.(cache := map[u := Effective(s4.db, u)]);
    var s9 := s7.(db := Written(s4.db, Grant(r, PermissionsNamed(s4.db, names))), running := map[]);
    CallLeads(s0, 0, create);
    CallLeads(s2, 1, assign);
    InvalidationLeads(s5, Only(u));
    LoadLeads(s5, u);
    GrantLeads(s7, 0, r, names);
    assert s7.running - {0} == map[] && s4 == s5.(pending := [Due(Only(u))]);
    steps := [Look(0, create), DoWrite(0), Look(1, assign), DoWrite(1), DeleteKeys(0),
              LoadReads(0, u), LoadStores(0), Find(0), DoWrite(0)];
    states := [s0, s0.(running := map[0 := Checked(create, db)]), s2,
               s2.(running := s2.running[1 := Checked(assign, s2.db)]), s4, s5,
               s5.(loads := map[0 := Load(u, Effective(s4.db, u))]), s7,
               s7.(running := s7.running[0 := Found(r, PermissionsNamed(s4.db, names))]), s9];
    assert !EntryOk(s9, u);
  }
}
