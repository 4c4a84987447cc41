/**
 * Job postings: what recruiters, admins, the scheduler and a company's suspension or deletion do to a job's
 * status and visibility, and how a job gets in front of candidates. Here a call is one step; calls that read
 * a job and write it back later are in `JobModerationSteps`.
 */
module JobModeration {
  import opened Basics
  import opened Schema

  type Jobs = map<JobId, Job>

  datatype LifecycleAction = Submit | Pause | Resume | Close | Unsupported

  /** The actions of `moderateJob`; any other string changes nothing. */
  datatype ModerationAction =
    Approve | Reject | Hide | Unhide | PauseJob | ResumeJob | ArchiveJob | DeleteJob | Feature | Unfeature | Unknown

  /** A status a recruiter may send with a job: the validator admits these two. */
  type SentStatus = s: JobStatus | s.Draft? || s.PendingApproval? witness Draft

  datatype Error = ProfileNotFound | CompanyNotApproved | JobNotFound | InvalidTransition | UnsupportedAction

  /** The calls that write job rows, with the lookups they make in other tables. */
  datatype Call =
    | PostJob(newId: JobId, recruiter: Option<CompanyId>, companyApproved: bool, status: Option<SentStatus>)
    | UpdateJob(job: JobId, hasProfile: bool, status: Option<SentStatus>)
    | DuplicateJob(job: JobId, newId: JobId)
    | Lifecycle(job: JobId, action: LifecycleAction)
    | ArchiveOwn(job: JobId)
    | DeleteOwn(job: JobId)
    | Moderate(job: JobId, decision: ModerationAction)
    | ReportJob(job: JobId)
    | ExpireJobs(overdue: set<JobId>)
    | ArchiveOwnedBy(owned: set<JobId>)
    | CompanyVisibility(company: CompanyId, visibility: Visibility)
    | DeleteCompany(company: CompanyId)

  function FreshJob(company: CompanyId, status: JobStatus): Job
  {
    Job(company, status, Visible, false, false)
  }

  function LifecycleStatus(status: JobStatus, action: LifecycleAction): Result<JobStatus, Error>
  {
    match action
    case Submit => if status.Draft? || status.Flagged? then Ok(JobStatus.PendingApproval) else Err(InvalidTransition)
    case Pause => if status.Approved? then Ok(Paused) else Err(InvalidTransition)
    case Resume => if status.Paused? then Ok(Approved) else Err(InvalidTransition)
    case Close => if status.Approved? || status.Paused? then Ok(Closed) else Err(InvalidTransition)
    case Unsupported => Err(UnsupportedAction)
  }

  function Moderated(job: Job, action: ModerationAction): Job
  {
    match action
    case Approve => job.(status := Approved, visibility := Visible)
    case Reject => job.(status := Flagged, visibility := Hidden)
    case Hide => job.(visibility := Hidden)
    case Unhide => job.(visibility := Visible)
    case PauseJob => job.(status := Paused)
    case ResumeJob => job.(status := Approved)
    case ArchiveJob => job.(status := Archived, visibility := Hidden)
    case Feature => job.(featured := true)
    case Unfeature => job.(featured := false)
    case DeleteJob => job
    case Unknown => job
  }

  /** The scheduler's `jobExpiry` run. */
  function Expired(jobs: Jobs, overdue: set<JobId>): Jobs
  {
    map j | j in jobs ::
      if j in overdue && (jobs[j].status.Approved? || jobs[j].status.PendingApproval?)
      then jobs[j].(status := Closed, visibility := Hidden) else jobs[j]
  }

  /** The table after a call, or the error it throws, which leaves the table as it was. */
  function Outcome(jobs: Jobs, call: Call): Result<Jobs, Error>
  {
    match call
    case PostJob(newId, recruiter, companyApproved, status) =>
      if recruiter.None? then Err(ProfileNotFound)
      else if !companyApproved then Err(CompanyNotApproved)
      else Ok(jobs[newId := FreshJob(recruiter.value, if status.Some? then status.value else Draft)])
    case UpdateJob(j, hasProfile, status) =>
      if !hasProfile then Err(ProfileNotFound)
      else if j !in jobs then Err(JobNotFound)
      else Ok(jobs[j := if status.Some? then jobs[j].(status := status.value) else jobs[j]])
    case DuplicateJob(j, newId) =>
      if j !in jobs then Err(JobNotFound) else Ok(jobs[newId := FreshJob(jobs[j].company, Draft)])
    case Lifecycle(j, action) =>
      if j !in jobs then Err(JobNotFound)
      else
        (match LifecycleStatus(jobs[j].status, action)
         case Err(e) => Err(e)
         case Ok(status) => Ok(jobs[j := jobs[j].(status := status)]))
    case ArchiveOwn(j) =>
      if j !in jobs then Err(JobNotFound) else Ok(jobs[j := jobs[j].(status := Archived, visibility := Hidden)])
    case DeleteOwn(j) => if j !in jobs then Err(JobNotFound) else Ok(jobs - {j})
    case Moderate(j, action) =>
      if j !in jobs then Err(JobNotFound)
      else if action.DeleteJob? then Ok(jobs - {j})
      else Ok(jobs[j := Moderated(jobs[j], action)])
    case ReportJob(j) => if j !in jobs then Err(JobNotFound) else Ok(jobs[j := jobs[j].(reported := true)])
    case ExpireJobs(overdue) => Ok(Expired(jobs, overdue))
    case ArchiveOwnedBy(owned) => Ok(map j | j in jobs :: if j in owned then jobs[j].(status := Archived) else jobs[j])
    case CompanyVisibility(c, visibility) => Ok(ShowApproved(jobs, c, visibility))
    case DeleteCompany(c) => Ok(map j | j in jobs && jobs[j].company != c :: jobs[j])
  }

  function After(jobs: Jobs, call: Call): Jobs
  {
    match Outcome(jobs, call)
    case Ok(after) => after
    case Err(_) => jobs
  }

  predicate FreshId(jobs: Jobs, call: Call)
  {
    (call.PostJob? || call.DuplicateJob?) ==> call.newId !in jobs
  }

  // ------------------------------------------------------------------ the gate

  /** Approved, or approved and paused. */
  predicate Live(jobs: Jobs, j: JobId)
  {
    j in jobs && (jobs[j].status.Approved? || jobs[j].status.Paused?)
  }

  /** What the `where` clause of `getJobs` and `getJobById` lets a candidate see. */
  predicate Listed(jobs: Jobs, j: JobId)
  {
    j in jobs && jobs[j].status.Approved? && jobs[j].visibility.Visible?
  }

  predicate IsAdminEntry(call: Call, j: JobId)
  {
    call.Moderate? && call.job == j && (call.decision.Approve? || call.decision.PauseJob? || call.decision.ResumeJob?)
  }

  /** A call brings a job into {approved, paused} exactly when it is an admin approving, pausing or resuming it. */
  lemma OnlyAdminsOpenTheGate(jobs: Jobs, call: Call, j: JobId)
    requires FreshId(jobs, call) && !Live(jobs, j)
    ensures Live(After(jobs, call), j) <==> j in jobs && IsAdminEntry(call, j)
  {
  }

  ghost function Run(jobs: Jobs, calls: seq<Call>): Jobs
  {
    if calls == [] then jobs else After(Run(jobs, calls[..|calls| - 1]), calls[|calls| - 1])
  }

  ghost predicate FreshIds(jobs: Jobs, calls: seq<Call>)
  {
    forall n :: 0 <= n < |calls| ==> FreshId(Run(jobs, calls[..n]), calls[n])
  }

  /** Call `i` opened the gate for `j`, and the job has been live ever since. */
  ghost predicate OpenedAt(jobs: Jobs, calls: seq<Call>, j: JobId, i: int)
  {
    && 0 <= i < |calls|
    && IsAdminEntry(calls[i], j)
    && !Live(Run(jobs, calls[..i]), j)
    && forall k :: i < k <= |calls| ==> Live(Run(jobs, calls[..k]), j)
  }

  lemma {:induction false} LiveJobsWereOpened(jobs: Jobs, calls: seq<Call>, j: JobId) returns (i: int)
    requires FreshIds(jobs, calls) && !Live(jobs, j) && Live(Run(jobs, calls), j)
    ensures OpenedAt(jobs, calls, j, i)
  {
    hide FreshId, After, IsAdminEntry, Live, Run;
    assert calls != [] by {
      EmptyRun(jobs);
    }
    var n := |calls| - 1;
    var before := Run(jobs, calls[..n]);
    RunSnoc(jobs, calls);
    assert calls[..|calls|] == calls && FreshId(before, calls[n]);
    if Live(before, j) {
      forall k | 0 <= k <= n
        ensures calls[..n][..k] == calls[..k]
      {
      }
      i := LiveJobsWereOpened(jobs, calls[..n], j);
      forall k | i < k <= |calls|
        ensures Live(Run(jobs, calls[..k]), j)
      {
        assert k <= n ==> Live(Run(jobs, calls[..n][..k]), j);
      }
    } else {
      OnlyAdminsOpenTheGate(before, calls[n], j);
      i := n;
    }
  }

  lemma EmptyRun(jobs: Jobs)
    ensures Run(jobs, []) == jobs
  {
  }

  lemma RunSnoc(jobs: Jobs, calls: seq<Call>)
    requires calls != []
    ensures Run(jobs, calls) == After(Run(jobs, calls[..|calls| - 1]), calls[|calls| - 1])
  {
  }

  /**
   * Whatever the calls and their order, as long as they do not overlap: a job a candidate can list has had an
   * admin approve, pause or resume it, after the last time it was anything but approved or paused.
   */
  lemma ListedJobsPassedTheGate(calls: seq<Call>, j: JobId)
    requires FreshIds(map[], calls) && Listed(Run(map[], calls), j)
    ensures exists i :: OpenedAt(map[], calls, j, i)
  {
    var i := LiveJobsWereOpened(map[], calls, j);
  }

  // ------------------------------------------------------------------ pausing is not approving

  /** No admin pauses a job that is not live. */
  ghost predicate NoBlindPause(jobs: Jobs, calls: seq<Call>)
  {
    forall n :: 0 <= n < |calls| && calls[n].Moderate? && calls[n].decision.PauseJob?
                ==> Live(Run(jobs, calls[..n]), calls[n].job)
  }

  /** Then every listed job was opened by an approval or by an admin's resume. */
  lemma ListedJobsWereApproved(calls: seq<Call>, j: JobId) returns (i: int)
    requires FreshIds(map[], calls) && Listed(Run(map[], calls), j) && NoBlindPause(map[], calls)
    ensures OpenedAt(map[], calls, j, i) && (calls[i].decision.Approve? || calls[i].decision.ResumeJob?)
  {
    i := LiveJobsWereOpened(map[], calls, j);
  }

  /**
   * The recruiter's "resume" is meant for jobs an admin approved. It takes any paused job, so an admin's
   * pause on a job in any state is enough for its recruiter to publish it: exactly when it is not hidden.
   */
  lemma PauseThenResumePublishes(jobs: Jobs, j: JobId)
    requires j in jobs
    ensures var calls := [Moderate(j, PauseJob), Lifecycle(j, Resume)];
            && Live(Run(jobs, calls), j)
            && (Listed(Run(jobs, calls), j) <==> jobs[j].visibility.Visible?)
  {
    var calls := [Moderate(j, PauseJob), Lifecycle(j, Resume)];
    assert calls[..1] == [Moderate(j, PauseJob)] && calls[..1][..0] == [];
    assert Run(jobs, calls[..1]) == After(jobs, Moderate(j, PauseJob));
  }

  /** Recruiters alone, in any number of calls that do not overlap, never list a job that is not live. */
  lemma {:induction false} RecruitersAloneNeverList(jobs: Jobs, calls: seq<Call>, j: JobId)
    requires FreshIds(jobs, calls) && !Live(jobs, j)
    requires forall n :: 0 <= n < |calls| ==> !calls[n].Moderate?
    ensures !Listed(Run(jobs, calls), j)
  {
    if Listed(Run(jobs, calls), j) {
      var i := LiveJobsWereOpened(jobs, calls, j);
    }
  }

  // ------------------------------------------------------------------ what hides a job and what shows it

  /** A hidden job is shown by an admin's unhide or approve, or, if it is approved, by its company's unsuspension. */
  lemma OnlyTheseShowAJob(jobs: Jobs, call: Call, j: JobId)
    requires FreshId(jobs, call) && j in jobs && jobs[j].visibility.Hidden?
    ensures j in After(jobs, call) && After(jobs, call)[j].visibility.Visible?
            <==> || (call.Moderate? && call.job == j && (call.decision.Unhide? || call.decision.Approve?))
                 || (call.CompanyVisibility? && call.visibility.Visible? && call.company == jobs[j].company
                     && jobs[j].status.Approved?)
  {
  }

  predicate MayShow(call: Call, j: JobId)
  {
    || (call.Moderate? && call.job == j && (call.decision.Unhide? || call.decision.Approve?))
    || (call.CompanyVisibility? && call.visibility.Visible?)
    || ((call.PostJob? || call.DuplicateJob?) && call.newId == j)
  }

  lemma StaysHidden(jobs: Jobs, call: Call, j: JobId)
    requires FreshId(jobs, call) && !MayShow(call, j) && (j in jobs ==> jobs[j].visibility.Hidden?)
    ensures j in After(jobs, call) ==> After(jobs, call)[j].visibility.Hidden?
  {
    if j in jobs {
      OnlyTheseShowAJob(jobs, call, j);
    }
  }

  lemma HidingHides(jobs: Jobs, j: JobId)
    ensures j in After(jobs, Moderate(j, Hide)) ==> After(jobs, Moderate(j, Hide))[j].visibility.Hidden?
  {
  }

  /** Once an admin has hidden a job, no candidate sees it until one of those calls, or until its id is used anew. */
  lemma {:induction false} HiddenUntilShown(jobs: Jobs, calls: seq<Call>, j: JobId, n: nat)
    requires FreshIds(jobs, calls) && 1 <= n <= |calls| && calls[0] == Moderate(j, Hide)
    requires forall m :: 1 <= m < n ==> !MayShow(calls[m], j)
    ensures j in Run(jobs, calls[..n]) ==> Run(jobs, calls[..n])[j].visibility.Hidden?
    ensures !Listed(Run(jobs, calls[..n]), j)
  {
    hide Run, FreshId, After;
    var before := Run(jobs, calls[..n - 1]);
    RunSnoc(jobs, calls[..n]);
    assert calls[..n][..n - 1] == calls[..n - 1] && FreshId(before, calls[n - 1]);
    if n > 1 {
      HiddenUntilShown(jobs, calls, j, n - 1);
      StaysHidden(before, calls[n - 1], j);
    } else {
      HidingHides(before, j);
    }
  }

  /** What the calls without a service method here do, row by row. */
  lemma OwnersAndCompanies(jobs: Jobs, j: JobId, c: CompanyId, visibility: Visibility, owned: set<JobId>, k: JobId)
    requires k in jobs
    ensures j in jobs <==> Outcome(jobs, ArchiveOwn(j)).Ok? && Outcome(jobs, DeleteOwn(j)).Ok? && Outcome(jobs, ReportJob(j)).Ok?
    ensures After(jobs, ArchiveOwn(k)) == jobs[k := jobs[k].(status := Archived, visibility := Hidden)]
    ensures After(jobs, DeleteOwn(k)) == jobs - {k}
    ensures After(jobs, ReportJob(k)) == jobs[k := jobs[k].(reported := true)]
    ensures var after := After(jobs, ArchiveOwnedBy(owned));
            k in after && after[k] == if k in owned then jobs[k].(status := Archived) else jobs[k]
    ensures var after := After(jobs, CompanyVisibility(c, visibility));
            k in after && after[k] == if jobs[k].company == c && jobs[k].status.Approved?
                                      then jobs[k].(visibility := visibility) else jobs[k]
    ensures k in After(jobs, DeleteCompany(c)) <==> jobs[k].company != c
    ensures k in After(jobs, DeleteCompany(c)) ==> After(jobs, DeleteCompany(c))[k] == jobs[k]
  {
  }

  // ------------------------------------------------------------------ the services

  class JobBoard {
    var jobs: Jobs

    constructor ()
      ensures jobs == map[]
    {
      jobs := map[];
    }

    method Post(newId: JobId, recruiter: Option<CompanyId>, companyApproved: bool, status: Option<SentStatus>)
      returns (error: Option<Error>)
      modifies this
      ensures Reports(old(jobs), PostJob(newId, recruiter, companyApproved, status), jobs, error)
      ensures error == if recruiter.None? then Some(ProfileNotFound)
                       else if !companyApproved then Some(CompanyNotApproved) else None
      ensures jobs == if error.Some? then old(jobs)
                      else if status == Some(JobStatus.PendingApproval)
                      then old(jobs)[newId := Job(recruiter.value, JobStatus.PendingApproval, Visible, false, false)]
                      else old(jobs)[newId := Job(recruiter.value, Draft, Visible, false, false)]
    {
      if recruiter.None? {
        return Some(ProfileNotFound);
      }
      if !companyApproved {
        return Some(CompanyNotApproved);
      }
      var initial := Draft;
      if status.Some? {
        initial := status.value;
      }
      jobs := jobs[newId := Job(recruiter.value, initial, Visible, false, false)];
      error := None;
    }

    method Update(j: JobId, hasProfile: bool, status: Option<SentStatus>) returns (error: Option<Error>)
      modifies this
      ensures Reports(old(jobs), UpdateJob(j, hasProfile, status), jobs, error)
      ensures error == if !hasProfile then Some(ProfileNotFound) else if j !in old(jobs) then Some(JobNotFound) else None
      ensures jobs == if error.None? && status.Some? then old(jobs)[j := old(jobs)[j].(status := status.value)] else old(jobs)
    {
      if !hasProfile {
        return Some(ProfileNotFound);
      }
      if j !in jobs {
        return Some(JobNotFound);
      }
      var job := jobs[j];
      if status.Some? {
        job := job.(status := status.value);
      }
      jobs := jobs[j := job];
      error := None;
    }

    method Duplicate(j: JobId, newId: JobId) returns (error: Option<Error>)
      modifies this
      ensures Reports(old(jobs), DuplicateJob(j, newId), jobs, error)
      ensures error == if j in old(jobs) then None else Some(JobNotFound)
      ensures jobs == if error.Some? then old(jobs)
                      else old(jobs)[newId := Job(old(jobs)[j].company, Draft, Visible, false, false)]
    {
      if j !in jobs {
        return Some(JobNotFound);
      }
      jobs := jobs[newId := Job(jobs[j].company, Draft, Visible, false, false)];
      error := None;
    }

    method LifecycleJob(j: JobId, action: LifecycleAction) returns (error: Option<Error>)
      modifies this
      ensures Reports(old(jobs), Lifecycle(j, action), jobs, error)
      ensures error == if j !in old(jobs) then Some(JobNotFound)
                       else
                         var from := old(jobs)[j].status;
                         if action.Unsupported? then Some(UnsupportedAction)
                         else if || (from.Draft? && action.Submit?) || (from.Flagged? && action.Submit?)
                                 || (from.Approved? && (action.Pause? || action.Close?))
                                 || (from.Paused? && (action.Resume? || action.Close?))
                         then None else Some(InvalidTransition)
      ensures error.Some? ==> jobs == old(jobs)
      ensures error.None? ==>
                jobs == old(jobs)[j := old(jobs)[j].(status := if action.Submit? then JobStatus.PendingApproval
                                                               else if action.Pause? then Paused
                                                               else if action.Resume? then Approved else Closed)]
    {
      if j !in jobs {
        return Some(JobNotFound);
      }
      var job := jobs[j];
      var next := job.status;
      if action == Submit {
        if job.status != Draft && job.status != Flagged {
          return Some(InvalidTransition);
        }
        next := JobStatus.PendingApproval;
      } else if action == Pause {
        if job.status != Approved {
          return Some(InvalidTransition);
        }
        next := Paused;
      } else if action == Resume {
        if job.status != Paused {
          return Some(InvalidTransition);
        }
        next := Approved;
      } else if action == Close {
        if job.status != Approved && job.status != Paused {
          return Some(InvalidTransition);
        }
        next := Closed;
      } else {
        return Some(UnsupportedAction);
      }
      jobs := jobs[j := job.(status := next)];
      error := None;
    }

    /** Column by column: which actions set the status, the visibility and the featured flag, and to what. */
    method ModerateJob(j: JobId, action: ModerationAction) returns (error: Option<Error>)
      modifies this
      ensures Reports(old(jobs), Moderate(j, action), jobs, error)
      ensures error == if j in old(jobs) then None else Some(JobNotFound)
      ensures error.Some? ==> jobs == old(jobs)
      ensures error.None? && action.DeleteJob? ==> jobs == old(jobs) - {j}
      ensures error.None? && !action.DeleteJob? ==>
                && j in jobs && jobs == old(jobs)[j := jobs[j]]
                && jobs[j].company == old(jobs)[j].company && jobs[j].reported == old(jobs)[j].reported
                && jobs[j].status == (if action.Approve? || action.ResumeJob? then Approved
                                      else if action.Reject? then Flagged
                                      else if action.PauseJob? then Paused
                                      else if action.ArchiveJob? then Archived else old(jobs)[j].status)
                && jobs[j].visibility == (if action.Approve? || action.Unhide? then Visible
                                          else if action.Reject? || action.Hide? || action.ArchiveJob? then Hidden
                                          else old(jobs)[j].visibility)
                && (jobs[j].featured <==> action.Feature? || (old(jobs)[j].featured && !action.Unfeature?))
    {
      if j !in jobs {
        return Some(JobNotFound);
      }
      var job := jobs[j];
      var status, visibility, featured := job.status, job.visibility, job.featured;
      match action {
        case Approve => status, visibility := Approved, Visible;
        case Reject => status, visibility := Flagged, Hidden;
        case Hide => visibility := Hidden;
        case Unhide => visibility := Visible;
        case PauseJob => status := Paused;
        case ResumeJob => status := Approved;
        case ArchiveJob => status, visibility := Archived, Hidden;
        case DeleteJob =>
          jobs := jobs - {j};
          return None;
        case Feature => featured := true;
        case Unfeature => featured := false;
        case Unknown =>
      }
      jobs := jobs[j := job.(status := status, visibility := visibility, featured := featured)];
      error := None;
    }

    /** The expiry loop: one update per overdue job that is approved or waiting for approval. */
    method ExpireOverdue(overdue: set<JobId>)
      modifies this
      ensures Reports(old(jobs), ExpireJobs(overdue), jobs, None)
      ensures jobs.Keys == old(jobs).Keys
      ensures forall j :: j in jobs ==>
                if j in overdue && (old(jobs)[j].status.Approved? || old(jobs)[j].status.PendingApproval?)
                then jobs[j] == old(jobs)[j].(status := Closed, visibility := Hidden) else jobs[j] == old(jobs)[j]
    {
      var rest := jobs.Keys;
      while rest != {}
        invariant rest <= old(jobs).Keys == jobs.Keys
        invariant forall j :: j in jobs ==> jobs[j] == if j in rest then old(jobs)[j] else Expired(old(jobs), overdue)[j]
        decreases |rest|
      {
        var j :| j in rest;
        rest := rest - {j};
        if j in overdue && (jobs[j].status == Approved || jobs[j].status == JobStatus.PendingApproval) {
          jobs := jobs[j := jobs[j].(status := Closed, visibility := Hidden)];
        }
      }
      assert jobs == Expired(old(jobs), overdue);
    }
  }

  /** A call left the table and returned the error its outcome says. */
  ghost predicate Reports(before: Jobs, call: Call, after: Jobs, error: Option<Error>)
  {
    match Outcome(before, call)
    case Ok(jobs) => after == jobs && error.None?
    case Err(e) => after == before && error == Some(e)
  }
}
