/**
 * `suspendCompany` and `unsuspendCompany` of the admin service: one call changes a company, the accounts of
 * its recruiters with their tokens and sessions, and the visibility of its jobs.
 */
module CompanySuspension {
  import opened Basics
  import opened Schema

  datatype Error = CompanyNotFound | AlreadySuspended | NotSuspended

  /** The tables a suspension touches; `recruiters` gives each recruiter's company, by user. */
  datatype Tables = Tables(
    companies: map<CompanyId, CompanyStatus>,
    users: map<UserId, UserStatus>,
    recruiters: map<UserId, CompanyId>,
    jobs: map<JobId, Job>,
    refreshTokens: map<Token, UserId>,
    sessions: map<SessionId, Session>)

  function RecruitersIn(t: Tables, c: CompanyId, status: UserStatus): set<UserId>
  {
    set u | u in t.recruiters && t.recruiters[u] == c && u in t.users && t.users[u] == status
  }

  /** `user.updateMany({ where: { id: { in: ids } }, data: { status } })`. */
  function WithStatus(users: map<UserId, UserStatus>, ids: set<UserId>, status: UserStatus): map<UserId, UserStatus>
  {
    map u | u in users :: if u in ids then status else users[u]
  }

  function Suspend(t: Tables, c: CompanyId): Result<Tables, Error>
  {
    if c !in t.companies then Err(CompanyNotFound)
    else if t.companies[c].CompanySuspended? then Err(AlreadySuspended)
    else
      var ids := RecruitersIn(t, c, Active);
      Ok(Tables(
           t.companies[c := CompanySuspended],
           WithStatus(t.users, ids, Suspended),
           t.recruiters,
           ShowApproved(t.jobs, c, Hidden),
           WithoutTokens(t.refreshTokens, ids),
           WithRevoked(t.sessions, ids)))
  }

  function Unsuspend(t: Tables, c: CompanyId): Result<Tables, Error>
  {
    if c !in t.companies then Err(CompanyNotFound)
    else if !t.companies[c].CompanySuspended? then Err(NotSuspended)
    else
      Ok(t.(companies := t.companies[c := CompanyApproved],
            users := WithStatus(t.users, RecruitersIn(t, c, Suspended), Active),
            jobs := ShowApproved(t.jobs, c, Visible)))
  }

  // ------------------------------------------------------------------ laws

  predicate SameStatuses(a: Tables, b: Tables)
  {
    a.companies == b.companies && a.users == b.users && a.jobs == b.jobs
  }

  /** A suspended company has no Active recruiter, no visible approved job, and no one it suspended stays logged in. */
  lemma SuspendShutsDown(t: Tables, c: CompanyId)
    requires Suspend(t, c).Ok?
    ensures var s := Suspend(t, c).value;
            && s.companies[c].CompanySuspended?
            && RecruitersIn(s, c, Active) == {}
            && (forall j :: j in s.jobs && s.jobs[j].company == c && s.jobs[j].status.Approved?
                            ==> s.jobs[j].visibility.Hidden?)
            && (forall k :: k in s.refreshTokens ==> s.refreshTokens[k] !in RecruitersIn(t, c, Active))
            && (forall k :: k in s.sessions && s.sessions[k].user in RecruitersIn(t, c, Active) ==> s.sessions[k].revoked)
  {
  }

  /** What neither call touches: other companies and their people, accounts of any other status, other jobs. */
  lemma SuspensionIsScoped(t: Tables, c: CompanyId, s: Tables)
    requires Suspend(t, c) == Ok(s) || Unsuspend(t, c) == Ok(s)
    ensures s.companies.Keys == t.companies.Keys && s.users.Keys == t.users.Keys && s.jobs.Keys == t.jobs.Keys
    ensures forall d :: d in t.companies && d != c ==> s.companies[d] == t.companies[d]
    ensures forall u :: u in t.users && (u !in t.recruiters || t.recruiters[u] != c || t.users[u] !in {Active, Suspended})
                        ==> s.users[u] == t.users[u]
    ensures forall j :: j in t.jobs && (t.jobs[j].company != c || !t.jobs[j].status.Approved?) ==> s.jobs[j] == t.jobs[j]
    ensures forall j :: j in t.jobs ==> s.jobs[j].status == t.jobs[j].status && s.jobs[j].company == t.jobs[j].company
    ensures forall k :: k in t.refreshTokens && (t.refreshTokens[k] !in t.recruiters || t.recruiters[t.refreshTokens[k]] != c)
                        ==> k in s.refreshTokens
    ensures forall k :: k in s.refreshTokens ==> k in t.refreshTokens && s.refreshTokens[k] == t.refreshTokens[k]
    ensures s.sessions.Keys == t.sessions.Keys
    ensures forall k :: k in t.sessions && (t.sessions[k].user !in t.recruiters || t.recruiters[t.sessions[k].user] != c)
                        ==> s.sessions[k] == t.sessions[k]
  {
  }

  /** Suspending, unsuspending and suspending again leaves what one suspension leaves. */
  lemma SuspendAgain(t: Tables, c: CompanyId)
    requires Suspend(t, c).Ok?
    ensures var once := Suspend(t, c).value;
            && Unsuspend(once, c).Ok?
            && Suspend(Unsuspend(once, c).value, c).Ok?
            && SameStatuses(Suspend(Unsuspend(once, c).value, c).value, once)
  {
    var once := Suspend(t, c).value;
    var back := Unsuspend(once, c).value;
    var again := Suspend(back, c).value;
    forall u | u in once.users
      ensures again.users[u] == once.users[u]
    {
      assert u in RecruitersIn(t, c, Active) <==> u in t.recruiters && t.recruiters[u] == c && t.users[u].Active?;
    }
  }

  /**
   * Unsuspending undoes a suspension exactly when the company was approved, none of its recruiters was
   * already suspended on its own, and none of its approved jobs was already hidden. In particular a company
   * that was never approved comes back approved, and a recruiter suspended for another reason comes back Active.
   */
  lemma UnsuspendUndoesExactly(t: Tables, c: CompanyId)
    requires Suspend(t, c).Ok?
    ensures SameStatuses(Unsuspend(Suspend(t, c).value, c).value, t)
            <==> && t.companies[c].CompanyApproved?
                 && RecruitersIn(t, c, Suspended) == {}
                 && (forall j :: j in t.jobs && t.jobs[j].company == c && t.jobs[j].status.Approved?
                                 ==> t.jobs[j].visibility.Visible?)
  {
    var once := Suspend(t, c).value;
    var back := Unsuspend(once, c).value;
    assert back.companies[c] == CompanyApproved;
    if u :| u in RecruitersIn(t, c, Suspended) {
      assert back.users[u] == Active;
    }
    if RecruitersIn(t, c, Suspended) == {} {
      forall u | u in t.users
        ensures back.users[u] == t.users[u]
      {
        assert u !in RecruitersIn(t, c, Suspended);
      }
    }
    if j :| j in t.jobs && t.jobs[j].company == c && t.jobs[j].status.Approved? && t.jobs[j].visibility.Hidden? {
      assert back.jobs[j].visibility == Visible;
    }
  }

  lemma NobodySuspended(users: map<UserId, UserStatus>, tokens: map<Token, UserId>, sessions: map<SessionId, Session>)
    ensures WithStatus(users, {}, Suspended) == users && WithoutTokens(tokens, {}) == tokens && WithRevoked(sessions, {}) == sessions
  {
  }

  /** Row by row, what a suspension leaves. */
  lemma SuspendedRows(t: Tables, c: CompanyId)
    requires Suspend(t, c).Ok?
    ensures var s, ids := Suspend(t, c).value, RecruitersIn(t, c, Active);
            && s.users.Keys == t.users.Keys && s.jobs.Keys == t.jobs.Keys && s.sessions.Keys == t.sessions.Keys
            && (forall u :: u in t.users ==> s.users[u] == if u in ids then Suspended else t.users[u])
            && (forall j :: j in t.jobs ==>
                  s.jobs[j] == if t.jobs[j].company == c && t.jobs[j].status.Approved?
                               then t.jobs[j].(visibility := Hidden) else t.jobs[j])
            && (forall k :: k in t.refreshTokens ==>
                  (k in s.refreshTokens <==> t.refreshTokens[k] !in ids)
                  && (k in s.refreshTokens ==> s.refreshTokens[k] == t.refreshTokens[k]))
            && (forall k :: k in t.sessions ==>
                  s.sessions[k] == Session(t.sessions[k].user, t.sessions[k].revoked || t.sessions[k].user in ids))
  {
  }

  // ------------------------------------------------------------------ the service

  class CompanyModeration {
    var companies: map<CompanyId, CompanyStatus>
    var users: map<UserId, UserStatus>
    var recruiters: map<UserId, CompanyId>
    var jobs: map<JobId, Job>
    var refreshTokens: map<Token, UserId>
    var sessions: map<SessionId, Session>
    /** Users whose cached permissions were dropped by the last call, in order. */
    var invalidated: seq<UserId>

    ghost function View(): Tables
      reads this
    {
      Tables(companies, users, recruiters, jobs, refreshTokens, sessions)
    }

    constructor (t: Tables)
      ensures View() == t && invalidated == []
    {
      companies, users, recruiters := t.companies, t.users, t.recruiters;
      jobs, refreshTokens, sessions, invalidated := t.jobs, t.refreshTokens, t.sessions, [];
    }

    /** The loop after the transaction: one cache invalidation per changed account. */
    method InvalidateAll(ids: set<UserId>)
      modifies this`invalidated
      ensures (forall u :: u in invalidated <==> u in ids) && |invalidated| == |ids|
    {
      invalidated := [];
      var rest := ids;
      while rest != {}
        invariant rest <= ids
        invariant forall u :: u in invalidated <==> u in ids - rest
        invariant |invalidated| + |rest| == |ids|
        decreases |rest|
      {
        var u :| u in rest;
        invalidated, rest := invalidated + [u], rest - {u};
      }
    }

    method SuspendCompany(c: CompanyId) returns (error: Option<Error>)
      modifies this
      ensures error == (match Suspend(old(View()), c) case Ok(_) => None case Err(e) => Some(e))
      ensures View() == (match Suspend(old(View()), c) case Ok(t) => t case Err(_) => old(View()))
      ensures error.None? ==> forall u :: u in invalidated <==> u in RecruitersIn(old(View()), c, Active)
      ensures error == if c !in old(companies) then Some(CompanyNotFound)
                       else if old(companies)[c].CompanySuspended? then Some(AlreadySuspended) else None
      ensures error.None? ==>
                companies == old(companies)[c := CompanySuspended] && recruiters == old(recruiters)
                && users.Keys == old(users).Keys && jobs.Keys == old(jobs).Keys && sessions.Keys == old(sessions).Keys
      ensures error.None? ==> forall u :: u in users ==>
                (u in invalidated <==> u in recruiters && recruiters[u] == c && old(users)[u].Active?)
                && users[u] == if u in invalidated then Suspended else old(users)[u]
      ensures error.None? ==> forall j :: j in jobs ==>
                jobs[j] == if old(jobs)[j].company == c && old(jobs)[j].status.Approved?
                           then old(jobs)[j].(visibility := Hidden) else old(jobs)[j]
      ensures error.None? ==> forall k :: k in old(refreshTokens) ==>
                (k in refreshTokens <==> old(refreshTokens)[k] !in invalidated)
                && (k in refreshTokens ==> refreshTokens[k] == old(refreshTokens)[k])
      ensures error.None? ==> forall k :: k in sessions ==>
                var before := old(sessions)[k];
                sessions[k] == Session(before.user, before.revoked || before.user in invalidated)
    {
      hide WithStatus, WithoutTokens, WithRevoked, ShowApproved;
      if c !in companies {
        return Some(CompanyNotFound);
      }
      if companies[c].CompanySuspended? {
        return Some(AlreadySuspended);
      }
      var ids := set u | u in recruiters && recruiters[u] == c && u in users && users[u].Active?;
      companies := companies[c := CompanySuspended];
      if |ids| > 0 {
        users := WithStatus(users, ids, Suspended);
        refreshTokens := WithoutTokens(refreshTokens, ids);
        sessions := WithRevoked(sessions, ids);
      }
      jobs := ShowApproved(jobs, c, Hidden);
      assert ids == RecruitersIn(old(View()), c, Active);
      NobodySuspended(old(users), old(refreshTokens), old(sessions));
      SuspendedRows(old(View()), c);
      InvalidateAll(ids);
      error := None;
    }

    method UnsuspendCompany(c: CompanyId) returns (error: Option<Error>)
      modifies this
      ensures error == (match Unsuspend(old(View()), c) case Ok(_) => None case Err(e) => Some(e))
      ensures View() == (match Unsuspend(old(View()), c) case Ok(t) => t case Err(_) => old(View()))
      ensures error.None? ==> forall u :: u in invalidated <==> u in RecruitersIn(old(View()), c, Suspended)
      ensures error == if c !in old(companies) then Some(CompanyNotFound)
                       else if !old(companies)[c].CompanySuspended? then Some(NotSuspended) else None
      ensures error.None? ==>
                companies == old(companies)[c := CompanyApproved] && recruiters == old(recruiters)
                && users.Keys == old(users).Keys && jobs.Keys == old(jobs).Keys
                && refreshTokens == old(refreshTokens) && sessions == old(sessions)
      ensures error.None? ==> forall u :: u in users ==>
                (u in invalidated <==> u in recruiters && recruiters[u] == c && old(users)[u].Suspended?)
                && users[u] == if u in invalidated then Active else old(users)[u]
      ensures error.None? ==> forall j :: j in jobs ==>
                jobs[j] == if old(jobs)[j].company == c && old(jobs)[j].status.Approved?
                           then old(jobs)[j].(visibility := Visible) else old(jobs)[j]
    {
      if c !in companies {
        return Some(CompanyNotFound);
      }
      if !companies[c].CompanySuspended? {
        return Some(NotSuspended);
      }
      var ids := set u | u in recruiters && recruiters[u] == c && u in users && users[u].Suspended?;
      companies := companies[c := CompanyApproved];
      if |ids| > 0 {
        users := WithStatus(users, ids, Active);
      }
      jobs := ShowApproved(jobs, c, Visible);
      assert ids == RecruitersIn(old(View()), c, Suspended);
      assert users == Unsuspend(old(View()), c).value.users;
      InvalidateAll(ids);
      error := None;
    }
  }
}
