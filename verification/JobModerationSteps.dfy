/**
 * Job calls that interleave. A call reads the job it is about, decides, and writes later; `moderateJob` writes
 * back the status, visibility and featured flag it read even when its action is about only one of them. What
 * the row has become in between is not looked at again.
 */
module JobModerationSteps {
  import opened Basics
  import opened Schema
  import opened JobModeration

  type OpId = nat

  /** A running call, and the table as it was when it looked. */
  datatype Pending = Pending(call: Call, seen: Jobs)

  datatype State = State(jobs: Jobs, running: map<OpId, Pending>)

  datatype Step = Look(op: OpId, call: Call) | DoWrite(op: OpId) | Abandon(op: OpId)

  predicate Enabled(s: State, step: Step)
  {
    match step
    case Look(op, _) => op !in s.running
    case DoWrite(op) => op in s.running && FreshId(s.jobs, s.running[op].call)
    case Abandon(op) => op in s.running
  }

  /** `job.update` with a status, and possibly more, on a row that must still be there. */
  function WithRow(jobs: Jobs, j: JobId, row: Job -> Job): Jobs
  {
    if j in jobs then jobs[j := row(jobs[j])] else jobs
  }

  /** What a call that was let through writes: values it computed from what it saw, into the rows as they are. */
  function Written(jobs: Jobs, p: Pending): Jobs
    requires Outcome(p.seen, p.call).Ok?
  {
    match p.call
    case PostJob(newId, recruiter, _, status) =>
      jobs[newId := FreshJob(recruiter.value, if status.Some? then status.value else Draft)]
    case UpdateJob(j, _, status) =>
      if status.None? then jobs else WithRow(jobs, j, (row: Job) => row.(status := status.value))
    case DuplicateJob(j, newId) => jobs[newId := FreshJob(p.seen[j].company, Draft)]
    case Lifecycle(j, action) =>
      var status := LifecycleStatus(p.seen[j].status, action).value;
      WithRow(jobs, j, (row: Job) => row.(status := status))
    case ArchiveOwn(j) => WithRow(jobs, j, (row: Job) => row.(status := Archived, visibility := Hidden))
    case DeleteOwn(j) => jobs - {j}
    case Moderate(j, action) =>
      if action.DeleteJob? then jobs - {j}
      else
        var m := Moderated(p.seen[j], action);
        WithRow(jobs, j, (row: Job) => row.(status := m.status, visibility := m.visibility, featured := m.featured))
    case ReportJob(j) => WithRow(jobs, j, (row: Job) => row.(reported := true))
    case ExpireJobs(overdue) =>
      var open := set j | j in p.seen && j in overdue && (p.seen[j].status.Approved? || p.seen[j].status.PendingApproval?);
      map j | j in jobs :: if j in open then jobs[j].(status := Closed, visibility := Hidden) else jobs[j]
    case ArchiveOwnedBy(owned) => map j | j in jobs :: if j in owned then jobs[j].(status := Archived) else jobs[j]
    case CompanyVisibility(c, visibility) => ShowApproved(jobs, c, visibility)
    case DeleteCompany(c) => map j | j in jobs && jobs[j].company != c :: jobs[j]
  }

  function Next(s: State, step: Step): State
    requires Enabled(s, step)
  {
    match step
    case Look(op, call) =>
      if Outcome(s.jobs, call).Ok? then s.(running := s.running[op := Pending(call, s.jobs)]) else s
    case DoWrite(op) =>
      if Outcome(s.running[op].seen, s.running[op].call).Ok? then State(Written(s.jobs, s.running[op]), s.running - {op})
      else s.(running := s.running - {op})
    case Abandon(op) => s.(running := s.running - {op})
  }

  /** Writing to the table that was seen is what the call does when nothing interrupts it. */
  lemma UninterruptedCall(jobs: Jobs, call: Call)
    requires Outcome(jobs, call).Ok?
    ensures Written(jobs, Pending(call, jobs)) == After(jobs, call)
  {
  }

  // ------------------------------------------------------------------ which writes open the gate

  /**
   * The write of a call that is no approval but carries a live status from a row that was live when the call
   * looked: a recruiter's pause or resume, or an admin action about something else.
   */
  predicate CarriesLiveStatus(p: Pending, j: JobId)
  {
    && Live(p.seen, j)
    && (|| (p.call.Lifecycle? && p.call.job == j && (p.call.action.Pause? || p.call.action.Resume?))
        || (p.call.Moderate? && p.call.job == j
            && (p.call.decision.Hide? || p.call.decision.Unhide? || p.call.decision.Feature? || p.call.decision.Unfeature?
                || p.call.decision.Unknown?)))
  }

  lemma RowWritten(jobs: Jobs, j: JobId, row: Job -> Job, k: JobId)
    ensures Live(WithRow(jobs, j, row), k)
            <==> k in jobs && if k == j then row(jobs[j]).status in {Approved, Paused} else Live(jobs, k)
  {
  }

  lemma ModerationOpensExactly(jobs: Jobs, p: Pending, j: JobId)
    requires Outcome(p.seen, p.call).Ok? && p.call.Moderate? && !Live(jobs, j)
    ensures Live(Written(jobs, p), j) <==> j in jobs && (IsAdminEntry(p.call, j) || CarriesLiveStatus(p, j))
  {
    hide WithRow;
    if !p.call.decision.DeleteJob? {
      var m := Moderated(p.seen[p.call.job], p.call.decision);
      RowWritten(jobs, p.call.job,
                 (row: Job) => row.(status := m.status, visibility := m.visibility, featured := m.featured), j);
    }
  }

  lemma LifecycleOpensExactly(jobs: Jobs, p: Pending, j: JobId)
    requires Outcome(p.seen, p.call).Ok? && p.call.Lifecycle? && !Live(jobs, j)
    ensures Live(Written(jobs, p), j) <==> j in jobs && CarriesLiveStatus(p, j)
  {
    hide WithRow;
    var status := LifecycleStatus(p.seen[p.call.job].status, p.call.action).value;
    RowWritten(jobs, p.call.job, (row: Job) => row.(status := status), j);
  }

  lemma OthersNeverOpen(jobs: Jobs, p: Pending, j: JobId)
    requires Outcome(p.seen, p.call).Ok? && !p.call.Moderate? && !p.call.Lifecycle? && FreshId(jobs, p.call)
    requires !Live(jobs, j)
    ensures !Live(Written(jobs, p), j)
  {
  }

  /**
   * A write brings a job that is not live into {approved, paused} exactly when it is an admin's approve, pause
   * or resume, or carries a live status from before.
   */
  lemma WriteOpensGateExactly(jobs: Jobs, p: Pending, j: JobId)
    requires Outcome(p.seen, p.call).Ok? && FreshId(jobs, p.call) && !Live(jobs, j)
    ensures Live(Written(jobs, p), j) <==> j in jobs && (IsAdminEntry(p.call, j) || CarriesLiveStatus(p, j))
  {
    hide Written, Live, Outcome;
    match p.call
    case Moderate(_, _) => ModerationOpensExactly(jobs, p, j);
    case Lifecycle(_, _) => LifecycleOpensExactly(jobs, p, j);
    case _ => OthersNeverOpen(jobs, p, j);
  }

  /** The step lets a job through that no admin let through: from the row it meets and the one it saw. */
  predicate Bypasses(s: State, step: Step, j: JobId)
    requires Enabled(s, step)
  {
    && step.DoWrite? && Outcome(s.running[step.op].seen, s.running[step.op].call).Ok?
    && j in s.jobs && !Live(s.jobs, j) && CarriesLiveStatus(s.running[step.op], j)
  }

  /** The step is an admin's approve, pause or resume of the job taking effect. */
  predicate Admits(s: State, step: Step, j: JobId)
    requires Enabled(s, step)
  {
    step.DoWrite? && IsAdminEntry(s.running[step.op].call, j)
  }

  lemma StepOpensGateExactly(s: State, step: Step, j: JobId)
    requires Enabled(s, step) && !Live(s.jobs, j)
    ensures Live(Next(s, step).jobs, j)
            <==> Bypasses(s, step, j)
                 || (Admits(s, step, j) && j in s.jobs && Outcome(s.running[step.op].seen, s.running[step.op].call).Ok?)
  {
    hide Written, CarriesLiveStatus, IsAdminEntry, Outcome;
    if step.DoWrite? && Outcome(s.running[step.op].seen, s.running[step.op].call).Ok? {
      WriteOpensGateExactly(s.jobs, s.running[step.op], j);
    }
  }

  // ------------------------------------------------------------------ whole runs

  ghost predicate Path(states: seq<State>, steps: seq<Step>)
  {
    && |states| == |steps| + 1
    && forall n :: 0 <= n < |steps| ==> Enabled(states[n], steps[n]) && states[n + 1] == Next(states[n], steps[n])
  }

  /** Step `i` is an admin's approve, pause or resume that opened the gate for `j`, which has been live since. */
  ghost predicate OpenedAtStep(states: seq<State>, steps: seq<Step>, j: JobId, i: int, n: nat)
    requires Path(states, steps) && n <= |steps|
  {
    && 0 <= i < n
    && Admits(states[i], steps[i], j)
    && !Live(states[i].jobs, j)
    && forall k :: i < k <= n ==> Live(states[k].jobs, j)
  }

  lemma {:induction false} LiveSinceAdmitted(states: seq<State>, steps: seq<Step>, j: JobId, n: nat) returns (i: int)
    requires Path(states, steps) && n <= |steps|
    requires forall m :: 0 <= m < n ==> !Bypasses(states[m], steps[m], j)
    requires !Live(states[0].jobs, j) && Live(states[n].jobs, j)
    ensures OpenedAtStep(states, steps, j, i, n)
  {
    hide Enabled, Bypasses, Admits, Live;
    assert n > 0;
    assert states[n - 1 + 1] == Next(states[n - 1], steps[n - 1]);
    if Live(states[n - 1].jobs, j) {
      i := LiveSinceAdmitted(states, steps, j, n - 1);
    } else {
      StepOpensGateExactly(states[n - 1], steps[n - 1], j);
      i := n - 1;
    }
  }

  /**
   * Over every interleaving in which no write carries a live status over a job that is no longer live: a job a
   * candidate can list has had an admin's approve, pause or resume take effect, and has been live since.
   */
  lemma InterleavedListedJobsPassedTheGate(states: seq<State>, steps: seq<Step>, j: JobId, n: nat)
    requires Path(states, steps) && n <= |steps| && states[0] == State(map[], map[])
    requires forall m :: 0 <= m < |steps| ==> !Bypasses(states[m], steps[m], j)
    requires Listed(states[n].jobs, j)
    ensures exists i :: OpenedAtStep(states, steps, j, i, n)
  {
    var i := LiveSinceAdmitted(states, steps, j, n);
  }

  /** If moreover no admin's pause takes effect on a job that is not live, it was an approval or an admin's resume. */
  lemma InterleavedListedJobsWereApproved(states: seq<State>, steps: seq<Step>, j: JobId, n: nat) returns (i: int)
    requires Path(states, steps) && n <= |steps| && states[0] == State(map[], map[])
    requires forall m :: 0 <= m < |steps| ==> !Bypasses(states[m], steps[m], j)
    requires forall m :: 0 <= m < |steps| && Admits(states[m], steps[m], j) && !Live(states[m].jobs, j)
                         ==> !states[m].running[steps[m].op].call.decision.PauseJob?
    requires Listed(states[n].jobs, j)
    ensures OpenedAtStep(states, steps, j, i, n)
    ensures states[i].running[steps[i].op].call.decision.Approve? || states[i].running[steps[i].op].call.decision.ResumeJob?
  {
    i := LiveSinceAdmitted(states, steps, j, n);
  }

  /** Enough for the gate: nothing writes a job between another call's look at it and that call's write. */
  lemma UnchangedSinceLookDoesNotBypass(s: State, step: Step, j: JobId)
    requires Enabled(s, step) && step.DoWrite?
    requires j in s.jobs && j in s.running[step.op].seen ==> s.running[step.op].seen[j] == s.jobs[j]
    ensures !Bypasses(s, step, j)
  {
  }

  // ------------------------------------------------------------------ two ways round the gate

  /**
   * One admin features a listed job; another rejects it after the first one's read and before its write. The
   * rejected job is back in front of candidates, with nobody's approval since.
   */
  lemma FeatureUndoesReject(jobs: Jobs, j: JobId) returns (states: seq<State>, steps: seq<Step>)
    requires Listed(jobs, j)
    ensures Path(states, steps) && states[0] == State(jobs, map[])
    ensures steps == [Look(0, Moderate(j, Feature)), Look(1, Moderate(j, Reject)), DoWrite(1), DoWrite(0)]
    ensures states[3].jobs == After(jobs, Moderate(j, Reject)) && !Live(states[3].jobs, j)
    ensures states[4].running == map[] && Listed(states[4].jobs, j)
  {
    var feature, reject := Pending(Moderate(j, Feature), jobs), Pending(Moderate(j, Reject), jobs);
    var rejected := After(jobs, Moderate(j, Reject));
    UninterruptedCall(jobs, Moderate(j, Reject));
    steps := [Look(0, Moderate(j, Feature)), Look(1, Moderate(j, Reject)), DoWrite(1), DoWrite(0)];
    states := [State(jobs, map[]), State(jobs, map[0 := feature]), State(jobs, map[0 := feature, 1 := reject]),
               State(rejected, map[0 := feature]), State(Written(rejected, feature), map[])];
    assert map[0 := feature, 1 := reject] - {1} == map[0 := feature] && map[0 := feature] - {0} == map[];
  }

  /** And a recruiter's resume, read while the job was paused, takes a job that was rejected meanwhile to approved. */
  lemma ResumeUndoesReject(jobs: Jobs, j: JobId) returns (states: seq<State>, steps: seq<Step>)
    requires j in jobs && jobs[j].status.Paused?
    ensures Path(states, steps) && states[0] == State(jobs, map[])
    ensures steps == [Look(0, Lifecycle(j, Resume)), Look(1, Moderate(j, Reject)), DoWrite(1), DoWrite(0)]
    ensures states[3].jobs == After(jobs, Moderate(j, Reject)) && j in states[3].jobs && states[3].jobs[j].status.Flagged?
    ensures states[4].running == map[] && j in states[4].jobs && states[4].jobs[j].status.Approved?
  {
    var resume, reject := Pending(Lifecycle(j, Resume), jobs), Pending(Moderate(j, Reject), jobs);
    var rejected := After(jobs, Moderate(j, Reject));
    UninterruptedCall(jobs, Moderate(j, Reject));
    steps := [Look(0, Lifecycle(j, Resume)), Look(1, Moderate(j, Reject)), DoWrite(1), DoWrite(0)];
    states := [State(jobs, map[]), State(jobs, map[0 := resume]), State(jobs, map[0 := resume, 1 := reject]),
               State(rejected, map[0 := resume]), State(Written(rejected, resume), map[])];
    assert map[0 := resume, 1 := reject] - {1} == map[0 := resume] && map[0 := resume] - {0} == map[];
  }
}
