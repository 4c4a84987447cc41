/**
 * Job applications: `applyToJob` and `withdrawApplication` of the candidate service, `progressApplicant`,
 * `scheduleInterview` and `releaseOffer` of the recruiter service.
 *
 * Every call reads the rows it needs, checks them, and then writes. `Check` is the first half, `Commit` the
 * second; a call that nothing interrupts is one after the other. Scheduling an interview and reapplying write
 * in two database calls, `FirstPart` and `LastPart`. Calls that interleave are in `ApplicationSteps`.
 */
module Applications {
  import opened Basics

  type UserId = nat
  type CandidateId = nat
  type CompanyId = nat
  type JobId = nat
  type ApplicationId = nat

  datatype Status =
    Applied | Reviewed | Shortlisted | InterviewScheduled | OfferReleased | Rejected | Hired | Withdrawn

  // ------------------------------------------------------------------ allowed transitions

  const PIPELINE_ORDER: seq<Status> := [Applied, Reviewed, Shortlisted, InterviewScheduled, OfferReleased, Hired]

  predicate IsTerminal(s: Status)
  {
    s.Hired? || s.Rejected? || s.Withdrawn?
  }

  /** Statuses that are only set together with an interview or an offer. */
  predicate IsStructured(s: Status)
  {
    s.InterviewScheduled? || s.OfferReleased?
  }

  predicate IsWithdrawable(s: Status)
  {
    !(s.OfferReleased? || s.Hired? || s.Rejected? || s.Withdrawn?)
  }

  function IndexOf(order: seq<Status>, s: Status): (i: int)
    ensures -1 <= i < |order|
    ensures i >= 0 ==> order[i] == s
    ensures i == -1 ==> s !in order
  {
    if order == [] then -1
    else if order[0] == s then 0
    else
      var i := IndexOf(order[1..], s);
      if i == -1 then -1 else i + 1
  }

  function DropHiredUnless(stages: seq<Status>, keep: bool): seq<Status>
  {
    if stages == [] then []
    else (if stages[0] != Hired || keep then [stages[0]] else []) + DropHiredUnless(stages[1..], keep)
  }

  function GetAllowedTransitions(current: Status): seq<Status>
  {
    if IsTerminal(current) then []
    else
      var idx := IndexOf(PIPELINE_ORDER, current);
      var forward := if idx >= 0 then PIPELINE_ORDER[idx + 1..] else [];
      var allowed := DropHiredUnless(forward, current == InterviewScheduled || current == OfferReleased);
      var rescheduling := if current == InterviewScheduled then [InterviewScheduled] else [];
      allowed + rescheduling + [Rejected]
  }

  /** How far along the pipeline a status is. */
  function Rank(s: Status): nat
  {
    match s
    case Applied => 0
    case Reviewed => 1
    case Shortlisted => 2
    case InterviewScheduled => 3
    case OfferReleased => 4
    case Hired => 5
    case Rejected => 6
    case Withdrawn => 6
  }

  lemma {:induction false} DropHiredKeeps(stages: seq<Status>, keep: bool, s: Status)
    ensures s in DropHiredUnless(stages, keep) <==> s in stages && (s == Hired ==> keep)
  {
    if stages != [] {
      DropHiredKeeps(stages[1..], keep, s);
    }
  }

  lemma {:induction false} IndexOfAt(order: seq<Status>, k: nat)
    requires k < |order| && forall i :: 0 <= i < k ==> order[i] != order[k]
    ensures IndexOf(order, order[k]) == k
  {
    if k > 0 {
      IndexOfAt(order[1..], k - 1);
    }
  }

  lemma PipelineRanks()
    ensures |PIPELINE_ORDER| == 6
    ensures forall k :: 0 <= k < 6 ==> Rank(PIPELINE_ORDER[k]) == k
    ensures forall s :: Rank(s) < 6 ==> PIPELINE_ORDER[Rank(s)] == s
  {
  }

  lemma LaterStages(order: seq<Status>, current: Status, next: Status)
    requires !IsTerminal(current) && |order| == 6
    requires forall k :: 0 <= k < 6 ==> Rank(order[k]) == k
    requires forall s :: Rank(s) < 6 ==> order[Rank(s)] == s
    ensures IndexOf(order, current) == Rank(current)
    ensures next in order[Rank(current) + 1..] <==> Rank(current) < Rank(next) < 6
  {
    IndexOfAt(order, Rank(current));
    if Rank(current) < Rank(next) < 6 {
      assert order[Rank(next)] == next;
      assert order[Rank(current) + 1..][Rank(next) - Rank(current) - 1] == next;
    }
  }

  /** The table function, in closed form: strictly forward, Hired only from an interview or an offer. */
  lemma AllowedExactly(current: Status, next: Status)
    ensures next in GetAllowedTransitions(current)
            <==> && !IsTerminal(current) && !next.Withdrawn?
                 && (|| next.Rejected?
                     || (current.InterviewScheduled? && next.InterviewScheduled?)
                     || (Rank(next) > Rank(current) && (next.Hired? ==> current.InterviewScheduled? || current.OfferReleased?)))
  {
    hide IndexOf, DropHiredUnless;
    if !IsTerminal(current) {
      PipelineRanks();
      LaterStages(PIPELINE_ORDER, current, next);
      var keep := current == InterviewScheduled || current == OfferReleased;
      var allowed := DropHiredUnless(PIPELINE_ORDER[Rank(current) + 1..], keep);
      DropHiredKeeps(PIPELINE_ORDER[Rank(current) + 1..], keep, next);
      var rescheduling := if current == InterviewScheduled then [InterviewScheduled] else [];
      assert GetAllowedTransitions(current) == allowed + rescheduling + [Rejected];
      hide GetAllowedTransitions;
      InThree(allowed, rescheduling, [Rejected], next);
    }
  }

  /** And spelled out, stage by stage. */
  lemma AllowedTable(next: Status)
    ensures next in GetAllowedTransitions(Applied)
            <==> next in {Reviewed, Shortlisted, InterviewScheduled, OfferReleased, Rejected}
    ensures next in GetAllowedTransitions(Reviewed) <==> next in {Shortlisted, InterviewScheduled, OfferReleased, Rejected}
    ensures next in GetAllowedTransitions(Shortlisted) <==> next in {InterviewScheduled, OfferReleased, Rejected}
    ensures next in GetAllowedTransitions(InterviewScheduled)
            <==> next in {InterviewScheduled, OfferReleased, Hired, Rejected}
    ensures next in GetAllowedTransitions(OfferReleased) <==> next in {Hired, Rejected}
    ensures GetAllowedTransitions(Hired) == GetAllowedTransitions(Rejected) == GetAllowedTransitions(Withdrawn) == []
  {
    AllowedExactly(Applied, next);
    AllowedExactly(Reviewed, next);
    AllowedExactly(Shortlisted, next);
    AllowedExactly(InterviewScheduled, next);
    AllowedExactly(OfferReleased, next);
    hide IndexOf, DropHiredUnless;
  }

  lemma InThree(a: seq<Status>, b: seq<Status>, c: seq<Status>, s: Status)
    ensures s in a + b + c <==> s in a || s in b || s in c
  {
  }

  // ------------------------------------------------------------------ rows

  datatype Interview = Interview(title: string, scheduledAt: int, durationMins: nat)

  datatype Letter = Letter(url: string, publicId: string)

  /** An application with its history rows, oldest first, and its interview rows. */
  datatype Application = Application(
    candidate: CandidateId,
    job: JobId,
    status: Status,
    appliedOn: int,
    offerDetails: Option<string>,
    offerReleasedAt: Option<int>,
    offerLetterUrl: Option<string>,
    offerLetterPublicId: Option<string>,
    history: seq<Status>,
    interviews: seq<Interview>)

  type Table = map<ApplicationId, Application>

  datatype Candidate = Candidate(id: CandidateId, pendingVerification: bool)

  /** The rows of other tables a call looks up: profiles by user, and the company of each job. */
  datatype Directory = Directory(
    candidates: map<UserId, Candidate>,
    recruiters: map<UserId, CompanyId>,
    jobs: map<JobId, CompanyId>)

  datatype Error =
    | CandidateNotFound | JobNotFound | EmailNotVerified | AlreadyApplied
    | RecruiterNotFound | ApplicationNotFound | Forbidden
    | TerminalState | NeedsDetails | InvalidTransition | NotWithdrawable

  datatype Call =
    | Apply(user: UserId, job: JobId, newId: ApplicationId, now: int)
    | Withdraw(app: ApplicationId, user: UserId)
    | Progress(app: ApplicationId, user: UserId, target: Status)
    | Schedule(app: ApplicationId, user: UserId, interview: Interview)
    | Release(app: ApplicationId, user: UserId, details: string, letter: Option<Letter>, now: int)

  /** What a call decided to write. */
  datatype Write =
    | CreateRow(id: ApplicationId, candidate: CandidateId, job: JobId, now: int)
    | ResetRow(id: ApplicationId, now: int)
    | SetStatus(id: ApplicationId, status: Status)
    | AddInterview(id: ApplicationId, interview: Interview)
    | SetOffer(id: ApplicationId, details: string, now: int, letterUrl: Option<string>, letterPublicId: Option<string>)

  // ------------------------------------------------------------------ check

  predicate IsFor(a: Application, candidate: CandidateId, job: JobId)
  {
    a.candidate == candidate && a.job == job
  }

  /** The first row of a pair, in the order of the ids. */
  ghost predicate IsFirst(apps: Table, id: ApplicationId, candidate: CandidateId, job: JobId)
  {
    && id in apps && IsFor(apps[id], candidate, job)
    && forall other :: other in apps && IsFor(apps[other], candidate, job) ==> id <= other
  }

  lemma {:induction false} FirstExists(apps: Table, id: ApplicationId, candidate: CandidateId, job: JobId)
    requires id in apps && IsFor(apps[id], candidate, job)
    ensures exists first :: IsFirst(apps, first, candidate, job)
    decreases id
  {
    if other :| other in apps && IsFor(apps[other], candidate, job) && other < id {
      FirstExists(apps, other, candidate, job);
    } else {
      assert IsFirst(apps, id, candidate, job);
    }
  }

  /** `findFirst({ where: { candidateId, jobId } })`. */
  ghost function FindFirst(apps: Table, candidate: CandidateId, job: JobId): (found: Option<ApplicationId>)
    ensures found.Some? ==> IsFirst(apps, found.value, candidate, job)
    ensures found.None? ==> forall id :: id in apps ==> !IsFor(apps[id], candidate, job)
  {
    if some :| some in apps && IsFor(apps[some], candidate, job) then
      FirstExists(apps, some, candidate, job);
      var id :| IsFirst(apps, id, candidate, job);
      Some(id)
    else None
  }

  ghost function CheckApply(dir: Directory, apps: Table, user: UserId, job: JobId, newId: ApplicationId, now: int)
    : Result<Write, Error>
  {
    if user !in dir.candidates then Err(CandidateNotFound)
    else if job !in dir.jobs then Err(JobNotFound)
    else if dir.candidates[user].pendingVerification then Err(EmailNotVerified)
    else
      var candidate := dir.candidates[user].id;
      match FindFirst(apps, candidate, job)
      case None => Ok(CreateRow(newId, candidate, job, now))
      case Some(id) => if apps[id].status.Withdrawn? then Ok(ResetRow(id, now)) else Err(AlreadyApplied)
  }

  /** The lookups every recruiter call starts with. */
  function CheckAccess(dir: Directory, apps: Table, id: ApplicationId, user: UserId): Option<Error>
  {
    if user !in dir.recruiters then Some(RecruiterNotFound)
    else if id !in apps then Some(ApplicationNotFound)
    else if apps[id].job !in dir.jobs || dir.jobs[apps[id].job] != dir.recruiters[user] then Some(Forbidden)
    else None
  }

  function CheckWithdraw(dir: Directory, apps: Table, id: ApplicationId, user: UserId): (c: Result<Write, Error>)
    ensures c.Ok? ==> id in apps && c.value == SetStatus(id, Withdrawn)
  {
    if id !in apps then Err(ApplicationNotFound)
    else if user !in dir.candidates || apps[id].candidate != dir.candidates[user].id then Err(Forbidden)
    else if !IsWithdrawable(apps[id].status) then Err(NotWithdrawable)
    else Ok(SetStatus(id, Withdrawn))
  }

  function CheckProgress(dir: Directory, apps: Table, id: ApplicationId, user: UserId, target: Status)
    : (c: Result<Write, Error>)
    ensures c.Ok? ==> id in apps && c.value == SetStatus(id, target)
  {
    match CheckAccess(dir, apps, id, user)
    case Some(e) => Err(e)
    case None =>
      var current := apps[id].status;
      if IsTerminal(current) then Err(TerminalState)
      else if IsStructured(target) then Err(NeedsDetails)
      else if target != current && target !in GetAllowedTransitions(current) then Err(InvalidTransition)
      else Ok(SetStatus(id, target))
  }

  function CheckSchedule(dir: Directory, apps: Table, id: ApplicationId, user: UserId, interview: Interview)
    : (c: Result<Write, Error>)
    ensures c.Ok? ==> id in apps && c.value == AddInterview(id, interview)
  {
    match CheckAccess(dir, apps, id, user)
    case Some(e) => Err(e)
    case None =>
      var current := apps[id].status;
      if IsTerminal(current) then Err(TerminalState)
      else if current != InterviewScheduled && InterviewScheduled !in GetAllowedTransitions(current) then Err(InvalidTransition)
      else Ok(AddInterview(id, interview))
  }

  function CheckRelease(dir: Directory, apps: Table, id: ApplicationId, user: UserId, details: string,
                        letter: Option<Letter>, now: int)
    : (c: Result<Write, Error>)
    ensures c.Ok? ==> id in apps && c.value.SetOffer? && c.value.id == id
  {
    match CheckAccess(dir, apps, id, user)
    case Some(e) => Err(e)
    case None =>
      var current := apps[id].status;
      if IsTerminal(current) then Err(TerminalState)
      else if OfferReleased !in GetAllowedTransitions(current) then Err(InvalidTransition)
      else if letter.Some? then Ok(SetOffer(id, details, now, Some(letter.value.url), Some(letter.value.publicId)))
      else Ok(SetOffer(id, details, now, apps[id].offerLetterUrl, apps[id].offerLetterPublicId))
  }

  ghost function Check(dir: Directory, apps: Table, call: Call): (c: Result<Write, Error>)
    ensures c.Ok? ==> c.value.CreateRow? || c.value.id in apps
  {
    match call
    case Apply(user, job, newId, now) => CheckApply(dir, apps, user, job, newId, now)
    case Withdraw(id, user) => CheckWithdraw(dir, apps, id, user)
    case Progress(id, user, target) => CheckProgress(dir, apps, id, user, target)
    case Schedule(id, user, interview) => CheckSchedule(dir, apps, id, user, interview)
    case Release(id, user, details, letter, now) => CheckRelease(dir, apps, id, user, details, letter, now)
  }

  // ------------------------------------------------------------------ commit

  /** Writes that take two database calls. */
  predicate InTwoParts(w: Write)
  {
    w.ResetRow? || w.AddInterview?
  }

  /** `interview.deleteMany` when reapplying, `interview.create` when scheduling. */
  function FirstPart(row: Application, w: Write): Application
    requires InTwoParts(w)
  {
    if w.ResetRow? then row.(interviews := []) else row.(interviews := row.interviews + [w.interview])
  }

  /** The `application.update` of a write: the status, its history entry and the offer fields. */
  function LastPart(row: Application, w: Write): Application
    requires !w.CreateRow?
  {
    match w
    case ResetRow(_, now) =>
      row.(status := Applied, appliedOn := now, offerDetails := None, offerReleasedAt := None,
           offerLetterUrl := None, offerLetterPublicId := None, history := row.history + [Applied])
    case SetStatus(_, status) => row.(status := status, history := row.history + [status])
    case AddInterview(_, _) => row.(status := InterviewScheduled, history := row.history + [InterviewScheduled])
    case SetOffer(_, details, now, letterUrl, letterPublicId) =>
      row.(status := OfferReleased, offerDetails := Some(details), offerReleasedAt := Some(now),
           offerLetterUrl := letterUrl, offerLetterPublicId := letterPublicId,
           history := row.history + [OfferReleased])
  }

  function OfferData(a: Application): (Option<string>, Option<int>, Option<string>, Option<string>)
  {
    (a.offerDetails, a.offerReleasedAt, a.offerLetterUrl, a.offerLetterPublicId)
  }

  ghost predicate OnlyRowChanges(before: Table, after: Table, id: ApplicationId)
  {
    after.Keys == before.Keys && forall other :: other in before && other != id ==> after[other] == before[other]
  }

  /** The row a whole write leaves at its id, given the row that was there. */
  function Written(row: Application, w: Write): Application
    requires !w.CreateRow?
  {
    LastPart(if InTwoParts(w) then FirstPart(row, w) else row, w)
  }

  function NewRow(candidate: CandidateId, job: JobId, now: int): Application
  {
    Application(candidate, job, Applied, now, None, None, None, None, [Applied], [])
  }

  function Commit(apps: Table, w: Write): Table
    requires w.CreateRow? || w.id in apps
  {
    if w.CreateRow? then apps[w.id := NewRow(w.candidate, w.job, w.now)]
    else apps[w.id := Written(apps[w.id], w)]
  }

  /** A whole call with nothing in between. */
  ghost function Outcome(dir: Directory, apps: Table, call: Call): Result<Table, Error>
  {
    match Check(dir, apps, call)
    case Err(e) => Err(e)
    case Ok(w) => Ok(Commit(apps, w))
  }

  ghost function After(dir: Directory, apps: Table, call: Call): Table
  {
    match Outcome(dir, apps, call)
    case Err(_) => apps
    case Ok(after) => after
  }

  ghost function ErrorOf(dir: Directory, apps: Table, call: Call): Option<Error>
  {
    match Outcome(dir, apps, call)
    case Err(e) => Some(e)
    case Ok(_) => None
  }

  /** A generated id is new. */
  predicate FreshId(apps: Table, call: Call)
  {
    call.Apply? ==> call.newId !in apps
  }

  ghost predicate OnePerPair(apps: Table)
  {
    forall a, b :: a in apps && b in apps && a != b ==> !IsFor(apps[a], apps[b].candidate, apps[b].job)
  }

  // ------------------------------------------------------------------ the services

  class HiringService {
    var applications: Table
    const candidates: map<UserId, Candidate>
    const recruiters: map<UserId, CompanyId>
    const jobs: map<JobId, CompanyId>

    ghost function Dir(): Directory
    {
      Directory(candidates, recruiters, jobs)
    }

    constructor (dir: Directory)
      ensures applications == map[] && Dir() == dir
    {
      applications := map[];
      candidates, recruiters, jobs := dir.candidates, dir.recruiters, dir.jobs;
    }

    /** `interview.deleteMany` or `interview.create`: the interviews of one row change and nothing else does. */
    method WriteFirstPart(w: Write)
      requires InTwoParts(w) && w.id in applications
      modifies this
      ensures OnlyRowChanges(old(applications), applications, w.id)
      ensures applications[w.id].(interviews := old(applications[w.id].interviews)) == old(applications[w.id])
      ensures w.ResetRow? ==> applications[w.id].interviews == []
      ensures w.AddInterview? ==> applications[w.id].interviews == old(applications[w.id].interviews) + [w.interview]
      ensures applications == old(applications)[w.id := FirstPart(old(applications)[w.id], w)]
    {
      var row := applications[w.id];
      match w {
        case ResetRow(_, _) => row := row.(interviews := []);
        case AddInterview(_, interview) => row := row.(interviews := row.interviews + [interview]);
      }
      applications := applications[w.id := row];
    }

    /**
     * `application.update`, with the history row it creates: the history grows by the new status, the interviews
     * stay, and the offer data changes when an offer is released or a row is reset, and only then.
     */
    method WriteLastPart(w: Write)
      requires !w.CreateRow? && w.id in applications
      modifies this
      ensures OnlyRowChanges(old(applications), applications, w.id)
      ensures var a, b := old(applications[w.id]), applications[w.id];
              && b.history == a.history + [b.status] && b.interviews == a.interviews && IsFor(b, a.candidate, a.job)
              && (w.SetStatus? ==> b.status == w.status) && (w.ResetRow? ==> b.status.Applied?)
              && (w.AddInterview? ==> b.status.InterviewScheduled?) && (w.SetOffer? ==> b.status.OfferReleased?)
              && b.appliedOn == (if w.ResetRow? then w.now else a.appliedOn)
              && OfferData(b) == (if w.ResetRow? then (None, None, None, None)
                                  else if w.SetOffer? then (Some(w.details), Some(w.now), w.letterUrl, w.letterPublicId)
                                  else OfferData(a))
      ensures applications == old(applications)[w.id := LastPart(old(applications)[w.id], w)]
    {
      var row := applications[w.id];
      match w {
        case ResetRow(_, now) =>
          row := row.(appliedOn := now, offerDetails := None, offerReleasedAt := None);
          row := row.(offerLetterUrl := None, offerLetterPublicId := None);
          row := row.(status := Applied, history := row.history + [Applied]);
        case SetStatus(_, status) => row := row.(status := status, history := row.history + [status]);
        case AddInterview(_, _) =>
          row := row.(status := InterviewScheduled, history := row.history + [InterviewScheduled]);
        case SetOffer(_, details, now, letterUrl, letterPublicId) =>
          row := row.(offerDetails := Some(details), offerReleasedAt := Some(now));
          row := row.(offerLetterUrl := letterUrl, offerLetterPublicId := letterPublicId);
          row := row.(status := OfferReleased, history := row.history + [OfferReleased]);
      }
      applications := applications[w.id := row];
    }

    /** `findFirst` for a candidate and a job. */
    method FindApplication(candidate: CandidateId, job: JobId) returns (found: Option<ApplicationId>)
      ensures found == FindFirst(applications, candidate, job)
      ensures var mine := set id | id in applications && applications[id].candidate == candidate && applications[id].job == job;
              match found
              case None => mine == {}
              case Some(id) => id in mine && forall other :: other in mine ==> id <= other
    {
      var matching := set id | id in applications && IsFor(applications[id], candidate, job);
      if matching == {} {
        assert forall id :: id in applications && IsFor(applications[id], candidate, job) ==> id in matching;
        return None;
      }
      ghost var some :| some in matching;
      FirstExists(applications, some, candidate, job);
      ghost var first :| IsFirst(applications, first, candidate, job);
      assert first in matching && forall other :: other in matching ==> first <= other;
      var id :| id in matching && forall other :: other in matching ==> id <= other;
      assert IsFirst(applications, id, candidate, job);
      found := Some(id);
    }

    method ApplyToJob(user: UserId, job: JobId, newId: ApplicationId, now: int) returns (error: Option<Error>)
      modifies this
      ensures error == ErrorOf(Dir(), old(applications), Apply(user, job, newId, now))
      ensures applications == After(Dir(), old(applications), Apply(user, job, newId, now))
      ensures user !in candidates ==> error == Some(CandidateNotFound)
      ensures user in candidates && job !in jobs ==> error == Some(JobNotFound)
      ensures user in candidates && job in jobs && candidates[user].pendingVerification ==> error == Some(EmailNotVerified)
      ensures user in candidates && job in jobs && !candidates[user].pendingVerification ==>
                var mine := set id | id in old(applications) && old(applications)[id].candidate == candidates[user].id
                                     && old(applications)[id].job == job;
                if mine == {} then
                  error.None?
                  && applications == old(applications)[newId := Application(candidates[user].id, job, Applied, now, None, None,
                                                                             None, None, [Applied], [])]
                else
                  exists id :: id in mine && (forall other :: other in mine ==> id <= other) && var row := old(applications)[id];
                    if row.status.Withdrawn? then
                      error.None?
                      && applications == old(applications)[id := Application(row.candidate, job, Applied, now, None, None, None,
                                                                              None, row.history + [Applied], [])]
                    else error == Some(AlreadyApplied)
      ensures error.Some? ==> applications == old(applications)
    {
      if user !in candidates {
        return Some(CandidateNotFound);
      }
      if job !in jobs {
        return Some(JobNotFound);
      }
      if candidates[user].pendingVerification {
        return Some(EmailNotVerified);
      }
      var candidate := candidates[user].id;
      var found := FindApplication(candidate, job);
      if found.Some? {
        var id := found.value;
        if applications[id].status != Withdrawn {
          return Some(AlreadyApplied);
        }
        WriteFirstPart(ResetRow(id, now));
        WriteLastPart(ResetRow(id, now));
      } else {
        var row := Application(candidate, job, Applied, now, None, None, None, None, [Applied], []);
        applications := applications[newId := row];
      }
      error := None;
    }

    method WithdrawApplication(id: ApplicationId, user: UserId) returns (error: Option<Error>)
      modifies this
      ensures error == ErrorOf(Dir(), old(applications), Withdraw(id, user))
      ensures applications == After(Dir(), old(applications), Withdraw(id, user))
      ensures error == if id !in old(applications) then Some(ApplicationNotFound)
                       else if user !in candidates || old(applications)[id].candidate != candidates[user].id then Some(Forbidden)
                       else if old(applications)[id].status in {OfferReleased, Hired, Rejected, Withdrawn}
                       then Some(NotWithdrawable) else None
      ensures applications == if error.Some? then old(applications)
                              else
                                var row := old(applications)[id];
                                old(applications)[id := row.(status := Withdrawn, history := row.history + [Withdrawn])]
    {
      if id !in applications {
        return Some(ApplicationNotFound);
      }
      var app := applications[id];
      if user !in candidates || app.candidate != candidates[user].id {
        return Some(Forbidden);
      }
      if app.status == OfferReleased || app.status == Hired || app.status == Rejected || app.status == Withdrawn {
        return Some(NotWithdrawable);
      }
      WriteLastPart(SetStatus(id, Withdrawn));
      error := None;
    }

    method ProgressApplicant(id: ApplicationId, user: UserId, target: Status) returns (error: Option<Error>)
      modifies this
      ensures error == ErrorOf(Dir(), old(applications), Progress(id, user, target))
      ensures applications == After(Dir(), old(applications), Progress(id, user, target))
      ensures error == if user !in recruiters then Some(RecruiterNotFound)
                       else if id !in old(applications) then Some(ApplicationNotFound)
                       else
                         var row := old(applications)[id];
                         if row.job !in jobs || jobs[row.job] != recruiters[user] then Some(Forbidden)
                         else if row.status.Hired? || row.status.Rejected? || row.status.Withdrawn? then Some(TerminalState)
                         else if target.InterviewScheduled? || target.OfferReleased? then Some(NeedsDetails)
                         else if && target != row.status && !target.Rejected?
                                 && !(target.Reviewed? && row.status.Applied?)
                                 && !(target.Shortlisted? && (row.status.Applied? || row.status.Reviewed?))
                                 && !(target.Hired? && (row.status.InterviewScheduled? || row.status.OfferReleased?))
                         then Some(InvalidTransition) else None
      ensures applications == if error.Some? then old(applications)
                              else
                                var row := old(applications)[id];
                                old(applications)[id := row.(status := target, history := row.history + [target])]
    {
      AllowedTable(target);
      hide GetAllowedTransitions;
      error := CheckAccess(Directory(candidates, recruiters, jobs), applications, id, user);
      if error.Some? {
        return;
      }
      var app := applications[id];
      if app.status == Hired || app.status == Rejected || app.status == Withdrawn {
        return Some(TerminalState);
      }
      if target == InterviewScheduled || target == OfferReleased {
        return Some(NeedsDetails);
      }
      var allowed := GetAllowedTransitions(app.status);
      if target != app.status && target !in allowed {
        return Some(InvalidTransition);
      }
      WriteLastPart(SetStatus(id, target));
    }

    method ScheduleInterview(id: ApplicationId, user: UserId, title: string, scheduledAt: int, durationMins: nat)
      returns (error: Option<Error>)
      modifies this
      ensures var interview := Interview(title, scheduledAt, if durationMins == 0 then 60 else durationMins);
              && error == ErrorOf(Dir(), old(applications), Schedule(id, user, interview))
              && applications == After(Dir(), old(applications), Schedule(id, user, interview))
      ensures error == if user !in recruiters then Some(RecruiterNotFound)
                       else if id !in old(applications) then Some(ApplicationNotFound)
                       else
                         var row := old(applications)[id];
                         if row.job !in jobs || jobs[row.job] != recruiters[user] then Some(Forbidden)
                         else if row.status.Hired? || row.status.Rejected? || row.status.Withdrawn? then Some(TerminalState)
                         else if row.status.OfferReleased? then Some(InvalidTransition) else None
      ensures applications == if error.Some? then old(applications)
                              else
                                var row := old(applications)[id];
                                var interview := Interview(title, scheduledAt, if durationMins == 0 then 60 else durationMins);
                                old(applications)[id := row.(status := InterviewScheduled,
                                                             history := row.history + [InterviewScheduled],
                                                             interviews := row.interviews + [interview])]
    {
      AllowedTable(InterviewScheduled);
      hide GetAllowedTransitions;
      error := CheckAccess(Directory(candidates, recruiters, jobs), applications, id, user);
      if error.Some? {
        return;
      }
      var app := applications[id];
      if app.status == Hired || app.status == Rejected || app.status == Withdrawn {
        return Some(TerminalState);
      }
      var allowed := GetAllowedTransitions(app.status);
      if app.status != InterviewScheduled && InterviewScheduled !in allowed {
        return Some(InvalidTransition);
      }
      var interview := Interview(title, scheduledAt, if durationMins == 0 then 60 else durationMins);
      WriteFirstPart(AddInterview(id, interview));
      WriteLastPart(AddInterview(id, interview));
    }

    method ReleaseOffer(id: ApplicationId, user: UserId, details: string, letter: Option<Letter>, now: int)
      returns (error: Option<Error>)
      modifies this
      ensures error == ErrorOf(Dir(), old(applications), Release(id, user, details, letter, now))
      ensures applications == After(Dir(), old(applications), Release(id, user, details, letter, now))
      ensures error == if user !in recruiters then Some(RecruiterNotFound)
                       else if id !in old(applications) then Some(ApplicationNotFound)
                       else
                         var row := old(applications)[id];
                         if row.job !in jobs || jobs[row.job] != recruiters[user] then Some(Forbidden)
                         else if row.status.Hired? || row.status.Rejected? || row.status.Withdrawn? then Some(TerminalState)
                         else if row.status.OfferReleased? then Some(InvalidTransition) else None
      ensures applications == if error.Some? then old(applications)
                              else
                                var row := old(applications)[id];
                                var kept := row.(status := OfferReleased, history := row.history + [OfferReleased],
                                                 offerDetails := Some(details), offerReleasedAt := Some(now));
                                old(applications)[id :=
                                  if letter.None? then kept
                                  else kept.(offerLetterUrl := Some(letter.value.url),
                                             offerLetterPublicId := Some(letter.value.publicId))]
    {
      AllowedTable(OfferReleased);
      hide GetAllowedTransitions;
      error := CheckAccess(Directory(candidates, recruiters, jobs), applications, id, user);
      if error.Some? {
        return;
      }
      var app := applications[id];
      if app.status == Hired || app.status == Rejected || app.status == Withdrawn {
        return Some(TerminalState);
      }
      var allowed := GetAllowedTransitions(app.status);
      if OfferReleased !in allowed {
        return Some(InvalidTransition);
      }
      var url, publicId := app.offerLetterUrl, app.offerLetterPublicId;
      if letter.Some? {
        url, publicId := Some(letter.value.url), Some(letter.value.publicId);
      }
      WriteLastPart(SetOffer(id, details, now, url, publicId));
    }
  }
}
