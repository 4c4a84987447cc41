/**
 * In-app notifications: rows with an optional, unique dedupe key, each emitted to its recipient when it is
 * created, and the event handlers that create them.
 */
module Notifications {
  import opened Basics
  import Matching

  type Id = string

  datatype Notification = Notification(
    recipient: Id, title: string, message: string, category: string, actionUrl: string, dedupeKey: Option<string>)

  /** The users there are (`recipientId` is a foreign key), the active admins, the rows and the socket emits. */
  datatype World = World(users: set<Id>, admins: seq<Id>, rows: seq<Notification>, emits: seq<Notification>)

  predicate HasKey(w: World, key: string)
  {
    exists i :: 0 <= i < |w.rows| && w.rows[i].dedupeKey == Some(key)
  }

  predicate IsDuplicate(w: World, n: Notification)
  {
    n.dedupeKey.Some? && HasKey(w, n.dedupeKey.value)
  }

  /** The insert fails for another reason than its dedupe key. */
  predicate Throws(w: World, n: Notification)
  {
    !IsDuplicate(w, n) && n.recipient !in w.users
  }

  /** `createAndEmitNotification`: a duplicate key is suppressed, anything else that fails is thrown. */
  function Created(w: World, n: Notification): World
  {
    if IsDuplicate(w, n) || n.recipient !in w.users then w
    else w.(rows := w.rows + [n], emits := w.emits + [n])
  }

  /** `Promise.all` over some creations: all of them are made, in some order; the first failure is reported. */
  function AllCreated(w: World, ns: seq<Notification>): World
  {
    if ns == [] then w else Created(AllCreated(w, ns[..|ns| - 1]), ns[|ns| - 1])
  }

  predicate SomeThrows(w: World, ns: seq<Notification>)
  {
    ns != [] && (SomeThrows(w, ns[..|ns| - 1]) || Throws(AllCreated(w, ns[..|ns| - 1]), ns[|ns| - 1]))
  }

  /** A handler: groups of creations awaited one after the other, up to the first that throws. */
  function Handled(w: World, groups: seq<seq<Notification>>): World
    decreases |groups|
  {
    if groups == [] then w
    else if SomeThrows(w, groups[0]) then AllCreated(w, groups[0])
    else Handled(AllCreated(w, groups[0]), groups[1..])
  }

  // ------------------------------------------------------------------ the handlers

  datatype Event =
    | InterviewScheduled(application: Id, candidate: Id, message: string, adminMessage: string)
    | ApplicationStatusChanged(application: Id, candidate: Id, status: string, jobTitle: string)
    | JobSubmittedForApproval(job: Id, adminMessage: string)
    | ApplicationSubmitted(application: Id, recruiter: Id, message: string, adminMessage: string)
    | OfferReleased(application: Id, candidate: Id, message: string, adminMessage: string)
    | JobApproved(job: Id, owner: Option<Id>, message: string, candidateMessage: string, matched: seq<Id>)

  function ForAdmins(admins: seq<Id>, title: string, message: string, category: string, prefix: string): seq<Notification>
  {
    seq(|admins|, i requires 0 <= i < |admins| =>
      Notification(admins[i], title, message, category, "/admin/job-moderation", Some(prefix + ":" + admins[i])))
  }

  /** `STATUS_NOTIFICATION_COPY`; the other statuses have none. */
  function StatusCopy(status: string, jobTitle: string): Option<(string, string)>
  {
    if status == "Reviewed" then
      Some(("Application Under Review", "Your application for " + jobTitle + " is now under review."))
    else if status == "Shortlisted" then
      Some(("You've Been Shortlisted!", "Great news! You've been shortlisted for " + jobTitle + "."))
    else if status == "Hired" then
      Some(("Congratulations \U{2014} You're Selected!",
            "You've been selected for " + jobTitle + "! The recruiter will be in touch with next steps."))
    else if status == "Rejected" then
      Some(("Application Update",
            "Thank you for your interest in " + jobTitle
            + ". The recruiter has decided not to move forward with your application at this time."))
    else None
  }

  function ForOwner(job: Id, owner: Id, message: string): Notification
  {
    Notification(owner, "Job Posting Approved", message, "Moderation", "/recruiter/jobs/" + job,
                 Some("job-approved-recruiter:" + job))
  }

  function ForCandidates(job: Id, message: string, matched: seq<Id>): seq<Notification>
  {
    seq(|matched|, i requires 0 <= i < |matched| =>
      Notification(matched[i], "New Job Match", message, "Job", "/candidate/jobs/" + job,
                   Some("job-approved-candidate:" + job + ":" + matched[i])))
  }

  function Groups(admins: seq<Id>, e: Event): seq<seq<Notification>>
  {
    match e
    case InterviewScheduled(app, candidate, message, adminMessage) =>
      [[Notification(candidate, "Interview Scheduled!", message, "Application", "/candidate/applications",
                     Some("interview-scheduled-candidate:" + app))],
       ForAdmins(admins, "Interview Scheduled", adminMessage, "Application", "interview-scheduled-admin:" + app)]
    case ApplicationStatusChanged(app, candidate, status, jobTitle) =>
      (match StatusCopy(status, jobTitle)
       case None => []
       case Some(copy) =>
         [[Notification(candidate, copy.0, copy.1, "Application", "/candidate/applications",
                        Some("application-status:" + app + ":" + status))]])
    case JobSubmittedForApproval(job, adminMessage) =>
      [ForAdmins(admins, "New Job Pending Approval", adminMessage, "Moderation", "job-submitted:" + job)]
    case ApplicationSubmitted(app, recruiter, message, adminMessage) =>
      [[Notification(recruiter, "New Application Received", message, "Application", "/recruiter/applicants/" + app, None)],
       ForAdmins(admins, "New Job Application", adminMessage, "Application", "application-submitted:" + app)]
    case OfferReleased(app, candidate, message, adminMessage) =>
      [[Notification(candidate, "Job Offer Released!", message, "Application", "/candidate/applications", None)],
       ForAdmins(admins, "Offer Released", adminMessage, "Application", "offer-released-admin:" + app)]
    case JobApproved(job, owner, message, candidateMessage, matched) =>
      (if owner.Some? then
         [[ForOwner(job, owner.value, message)]]
       else [])
      + [ForCandidates(job, candidateMessage, matched)]
  }

  function Published(w: World, e: Event): World
  {
    Handled(w, Groups(w.admins, e))
  }

  // ------------------------------------------------------------------ at most one row per key

  ghost predicate UniqueKeys(w: World)
  {
    forall i, j :: 0 <= i < j < |w.rows| && w.rows[i].dedupeKey.Some? ==> w.rows[i].dedupeKey != w.rows[j].dedupeKey
  }

  /** Rows and emits are only appended to, one emit per row, and keys stay unique. */
  ghost predicate Appends(w: World, w': World)
  {
    && w.rows <= w'.rows && w.emits <= w'.emits
    && w'.rows[|w.rows|..] == w'.emits[|w.emits|..]
    && (UniqueKeys(w) ==> UniqueKeys(w'))
  }

  /** Everything creation keeps: that, and every new row is for a user there is. */
  ghost predicate Grows(w: World, w': World)
  {
    && w'.users == w.users && w'.admins == w.admins
    && Appends(w, w')
    && forall i :: |w.rows| <= i < |w'.rows| ==> w'.rows[i].recipient in w.users
  }

  lemma CreatedGrows(w: World, n: Notification)
    ensures Grows(w, Created(w, n))
  {
    var w' := Created(w, n);
    if w' != w && n.dedupeKey.Some? {
      forall i | 0 <= i < |w.rows|
        ensures w.rows[i].dedupeKey != n.dedupeKey
      {
        assert !HasKey(w, n.dedupeKey.value);
      }
    }
  }

  lemma AppendsTransitive(a: World, b: World, c: World)
    requires Appends(a, b) && Appends(b, c)
    ensures Appends(a, c)
  {
    assert c.rows[|a.rows|..] == b.rows[|a.rows|..] + c.rows[|b.rows|..];
    assert c.emits[|a.emits|..] == b.emits[|a.emits|..] + c.emits[|b.emits|..];
  }

  lemma GrowsTransitive(a: World, b: World, c: World)
    requires Grows(a, b) && Grows(b, c)
    ensures Grows(a, c)
  {
    AppendsTransitive(a, b, c);
    forall i | |a.rows| <= i < |c.rows|
      ensures c.rows[i].recipient in a.users
    {
      assert i < |b.rows| ==> c.rows[i] == b.rows[i];
    }
  }

  lemma {:induction false} AllCreatedGrows(w: World, ns: seq<Notification>)
    ensures Grows(w, AllCreated(w, ns))
  {
    if ns != [] {
      var before := AllCreated(w, ns[..|ns| - 1]);
      AllCreatedGrows(w, ns[..|ns| - 1]);
      CreatedGrows(before, ns[|ns| - 1]);
      GrowsTransitive(w, before, AllCreated(w, ns));
    }
  }

  lemma {:induction false} HandledGrows(w: World, groups: seq<seq<Notification>>)
    ensures Grows(w, Handled(w, groups))
    decreases |groups|
  {
    if groups != [] {
      AllCreatedGrows(w, groups[0]);
      if !SomeThrows(w, groups[0]) {
        HandledGrows(AllCreated(w, groups[0]), groups[1..]);
        GrowsTransitive(w, AllCreated(w, groups[0]), Handled(w, groups));
      }
    }
  }

  /** An event, with the users and active admins there are when it is handled. */
  datatype Occurrence = Occurrence(users: set<Id>, admins: seq<Id>, event: Event)

  function AllPublished(w: World, run: seq<Occurrence>): World
  {
    if run == [] then w
    else
      var last := run[|run| - 1];
      Published(AllPublished(w, run[..|run| - 1]).(users := last.users, admins := last.admins), last.event)
  }

  /**
   * Whatever is published, however often, and however users and admins come and go in between: one row per
   * key, rows and emits only appended to, and exactly one emit per row created.
   */
  lemma {:induction false} EveryRunKeepsKeysUnique(w: World, run: seq<Occurrence>)
    ensures var w' := AllPublished(w, run);
            && w.rows <= w'.rows && w.emits <= w'.emits && w'.rows[|w.rows|..] == w'.emits[|w.emits|..]
            && (UniqueKeys(w) ==> UniqueKeys(w'))
  {
    if run != [] {
      var n := |run| - 1;
      var before := AllPublished(w, run[..n]);
      EveryRunKeepsKeysUnique(w, run[..n]);
      var now := before.(users := run[n].users, admins := run[n].admins);
      assert Appends(before, now);
      HandledGrows(now, Groups(now.admins, run[n].event));
      AppendsTransitive(before, now, AllPublished(w, run));
      AppendsTransitive(w, before, AllPublished(w, run));
    }
  }

  // ------------------------------------------------------------------ replays

  /** The same recipients under the same keys, all of them keyed; titles, messages and links may differ. */
  ghost predicate SameTargets(a: seq<Notification>, b: seq<Notification>)
  {
    && |a| == |b|
    && forall i :: 0 <= i < |a| ==> a[i].dedupeKey.Some? && a[i].dedupeKey == b[i].dedupeKey && a[i].recipient == b[i].recipient
  }

  ghost predicate SameGroups(a: seq<seq<Notification>>, b: seq<seq<Notification>>)
  {
    |a| == |b| && forall i :: 0 <= i < |a| ==> SameTargets(a[i], b[i])
  }

  /** Creating `n` now would change nothing: its key is taken or its recipient is gone. */
  predicate Inert(w: World, n: Notification)
  {
    IsDuplicate(w, n) || n.recipient !in w.users
  }

  ghost predicate AllInert(w: World, ns: seq<Notification>)
  {
    forall i :: 0 <= i < |ns| ==> Inert(w, ns[i])
  }

  lemma InertStays(w: World, w': World, n: Notification)
    requires Inert(w, n) && Grows(w, w')
    ensures Inert(w', n)
  {
    if IsDuplicate(w, n) {
      var i :| 0 <= i < |w.rows| && w.rows[i].dedupeKey == Some(n.dedupeKey.value);
      assert w'.rows[i].dedupeKey == Some(n.dedupeKey.value);
    }
  }

  lemma CreatedIsInert(w: World, n: Notification)
    requires n.dedupeKey.Some?
    ensures Inert(Created(w, n), n)
  {
    var w' := Created(w, n);
    if w' != w {
      assert w'.rows[|w.rows|].dedupeKey == Some(n.dedupeKey.value);
    }
  }

  lemma {:induction false} AllCreatedIsInert(w: World, ns: seq<Notification>)
    requires forall i :: 0 <= i < |ns| ==> ns[i].dedupeKey.Some?
    ensures AllInert(AllCreated(w, ns), ns)
  {
    if ns != [] {
      var n := |ns| - 1;
      var before := AllCreated(w, ns[..n]);
      AllCreatedIsInert(w, ns[..n]);
      CreatedGrows(before, ns[n]);
      CreatedIsInert(before, ns[n]);
      forall i | 0 <= i < n
        ensures Inert(AllCreated(w, ns), ns[i])
      {
        assert Inert(before, ns[..n][i]);
        InertStays(before, AllCreated(w, ns), ns[i]);
      }
    }
  }

  /** Inert creations do nothing, and one of them throws exactly when its key is free. */
  lemma {:induction false} InertDoesNothing(w: World, ns: seq<Notification>)
    requires AllInert(w, ns)
    ensures AllCreated(w, ns) == w
    ensures SomeThrows(w, ns) <==> exists i :: 0 <= i < |ns| && !IsDuplicate(w, ns[i])
  {
    if ns != [] {
      var n := |ns| - 1;
      InertDoesNothing(w, ns[..n]);
      assert Inert(w, ns[n]);
      if i :| 0 <= i < n && !IsDuplicate(w, ns[..n][i]) {
        assert !IsDuplicate(w, ns[i]);
      }
      if i :| 0 <= i < |ns| && !IsDuplicate(w, ns[i]) && i < n {
        assert !IsDuplicate(w, ns[..n][i]);
      }
    }
  }

  /** A creation that did not throw took its key, or found it taken. */
  lemma {:induction false} NoThrowTakesEveryKey(w: World, ns: seq<Notification>)
    requires !SomeThrows(w, ns) && forall i :: 0 <= i < |ns| ==> ns[i].dedupeKey.Some?
    ensures forall i :: 0 <= i < |ns| ==> IsDuplicate(AllCreated(w, ns), ns[i])
  {
    if ns != [] {
      var n := |ns| - 1;
      var before, after := AllCreated(w, ns[..n]), AllCreated(w, ns);
      NoThrowTakesEveryKey(w, ns[..n]);
      CreatedGrows(before, ns[n]);
      forall i | 0 <= i < n
        ensures IsDuplicate(after, ns[i])
      {
        assert IsDuplicate(before, ns[..n][i]);
        DuplicateStays(before, after, ns[i]);
      }
      CreatedIsInert(before, ns[n]);
    }
  }

  lemma DuplicateStays(w: World, w': World, n: Notification)
    requires IsDuplicate(w, n) && Grows(w, w')
    ensures IsDuplicate(w', n)
  {
    var i :| 0 <= i < |w.rows| && w.rows[i].dedupeKey == Some(n.dedupeKey.value);
    assert w'.rows[i].dedupeKey == Some(n.dedupeKey.value);
  }

  /** A creation that throws leaves its key free. */
  lemma {:induction false} ThrowLeavesKeyFree(w: World, ns: seq<Notification>)
    requires SomeThrows(w, ns) && Distinct(ns)
    ensures exists i :: 0 <= i < |ns| && !IsDuplicate(AllCreated(w, ns), ns[i])
  {
    var n := |ns| - 1;
    var before, after := AllCreated(w, ns[..n]), AllCreated(w, ns);
    if SomeThrows(w, ns[..n]) {
      ThrowLeavesKeyFree(w, ns[..n]);
      var i :| 0 <= i < n && !IsDuplicate(before, ns[..n][i]);
      assert ns[i].dedupeKey != ns[n].dedupeKey;
      assert !IsDuplicate(after, ns[i]);
    } else {
      assert after == before && !IsDuplicate(after, ns[n]);
    }
  }

  ghost predicate Distinct(ns: seq<Notification>)
  {
    forall i, j :: 0 <= i < j < |ns| ==> ns[i].dedupeKey != ns[j].dedupeKey
  }

  lemma SameTargetsInert(w: World, a: seq<Notification>, b: seq<Notification>)
    requires SameTargets(a, b) && AllInert(w, a)
    ensures AllInert(w, b)
  {
    forall i | 0 <= i < |b|
      ensures Inert(w, b[i])
    {
      assert Inert(w, a[i]);
    }
  }

  /** Handling the same targets again, whatever the texts, creates and emits nothing. */
  lemma {:induction false} ReplayDoesNothing(w: World, a: seq<seq<Notification>>, b: seq<seq<Notification>>)
    requires SameGroups(a, b) && forall i :: 0 <= i < |a| ==> Distinct(a[i])
    ensures Handled(Handled(w, a), b) == Handled(w, a)
    decreases |a|
  {
    hide SomeThrows, AllCreated, Distinct, HasKey, UniqueKeys;
    if a != [] {
      var first, final := AllCreated(w, a[0]), Handled(w, a);
      AllCreatedIsInert(w, a[0]);
      if SomeThrows(w, a[0]) {
        SameTargetsInert(first, a[0], b[0]);
        InertDoesNothing(first, b[0]);
        ThrowLeavesKeyFree(w, a[0]);
        var i :| 0 <= i < |a[0]| && !IsDuplicate(first, a[0][i]);
        assert !IsDuplicate(first, b[0][i]);
      } else {
        NoThrowTakesEveryKey(w, a[0]);
        HandledGrows(first, a[1..]);
        forall i | 0 <= i < |b[0]|
          ensures IsDuplicate(final, b[0][i])
        {
          DuplicateStays(first, final, a[0][i]);
        }
        InertDoesNothing(final, b[0]);
        ReplayDoesNothing(first, a[1..], b[1..]);
      }
    }
  }

  // ------------------------------------------------------------------ which events are idempotent

  /** One key per recipient, all under the same prefix: distinct recipients have distinct keys. */
  lemma KeysDistinct(ids: seq<Id>, prefix: string, ns: seq<Notification>)
    requires NoRepeats(ids) && |ns| == |ids| && forall i :: 0 <= i < |ns| ==> ns[i].dedupeKey == Some(prefix + ids[i])
    ensures Distinct(ns)
  {
    forall i, j | 0 <= i < j < |ns|
      ensures ns[i].dedupeKey != ns[j].dedupeKey
    {
      assert (prefix + ids[i])[|prefix|..] == ids[i] && (prefix + ids[j])[|prefix|..] == ids[j];
    }
  }

  lemma AdminKeysDistinct(admins: seq<Id>, title: string, message: string, category: string, prefix: string)
    requires NoRepeats(admins)
    ensures Distinct(ForAdmins(admins, title, message, category, prefix))
  {
    KeysDistinct(admins, prefix + ":", ForAdmins(admins, title, message, category, prefix));
  }

  lemma CandidateKeysDistinct(job: Id, message: string, matched: seq<Id>)
    requires NoRepeats(matched)
    ensures Distinct(ForCandidates(job, message, matched))
  {
    var ns := ForCandidates(job, message, matched);
    var p := "job-approved-candidate:" + job + ":";
    forall i | 0 <= i < |ns|
      ensures ns[i].dedupeKey == Some(p + matched[i])
    {
    }
    KeysDistinct(matched, p, ns);
  }

  /** Two events about the same thing: the same application, recipient and status, or the same job. */
  predicate SameSubject(e: Event, f: Event)
  {
    match e
    case InterviewScheduled(app, candidate, _, _) => f.InterviewScheduled? && f.application == app && f.candidate == candidate
    case ApplicationStatusChanged(app, candidate, status, _) =>
      f.ApplicationStatusChanged? && f.application == app && f.candidate == candidate && f.status == status
    case JobSubmittedForApproval(job, _) => f.JobSubmittedForApproval? && f.job == job
    case JobApproved(job, owner, _, _, _) => f.JobApproved? && f.job == job && f.owner == owner
    case _ => false
  }

  lemma GroupsDistinct(admins: seq<Id>, e: Event)
    requires NoRepeats(admins) && (e.JobApproved? ==> NoRepeats(e.matched))
    ensures forall i :: 0 <= i < |Groups(admins, e)| ==> Distinct(Groups(admins, e)[i])
  {
    match e
    case InterviewScheduled(app, candidate, message, adminMessage) =>
      AdminKeysDistinct(admins, "Interview Scheduled", adminMessage, "Application", "interview-scheduled-admin:" + app);
    case ApplicationStatusChanged(_, _, _, _) =>
    case JobSubmittedForApproval(job, adminMessage) =>
      AdminKeysDistinct(admins, "New Job Pending Approval", adminMessage, "Moderation", "job-submitted:" + job);
    case ApplicationSubmitted(app, recruiter, message, adminMessage) =>
      AdminKeysDistinct(admins, "New Job Application", adminMessage, "Application", "application-submitted:" + app);
    case OfferReleased(app, candidate, message, adminMessage) =>
      AdminKeysDistinct(admins, "Offer Released", adminMessage, "Application", "offer-released-admin:" + app);
    case JobApproved(job, owner, message, candidateMessage, matched) =>
      CandidateKeysDistinct(job, candidateMessage, matched);
  }

  lemma SameAdmins(admins: seq<Id>, title: string, message: string, other: string, category: string, prefix: string)
    ensures SameTargets(ForAdmins(admins, title, message, category, prefix), ForAdmins(admins, title, other, category, prefix))
  {
  }

  lemma SameCandidates(job: Id, message: string, other: string, matched: seq<Id>)
    ensures SameTargets(ForCandidates(job, message, matched), ForCandidates(job, other, matched))
  {
  }

  lemma SameOne(n: Notification, m: Notification)
    requires n.dedupeKey.Some? && n.dedupeKey == m.dedupeKey && n.recipient == m.recipient
    ensures SameTargets([n], [m])
  {
  }

  lemma SameStatusesHaveCopy(status: string, jobTitle: string, other: string)
    ensures StatusCopy(status, jobTitle).Some? <==> StatusCopy(status, other).Some?
  {
  }

  lemma SameApproval(admins: seq<Id>, e: Event, f: Event)
    requires e.JobApproved? && SameSubject(e, f) && f.matched == e.matched
    ensures SameGroups(Groups(admins, e), Groups(admins, f))
  {
    hide ForCandidates, SameTargets;
    if e.owner.Some? {
      SameOne(ForOwner(e.job, e.owner.value, e.message), ForOwner(f.job, e.owner.value, f.message));
    }
    SameCandidates(e.job, e.candidateMessage, f.candidateMessage, e.matched);
  }

  lemma SameSubjectSameGroups(admins: seq<Id>, e: Event, f: Event)
    requires SameSubject(e, f) && (e.JobApproved? ==> f.matched == e.matched)
    ensures SameGroups(Groups(admins, e), Groups(admins, f))
  {
    hide ForAdmins, ForCandidates, SameTargets, StatusCopy;
    var a, b := Groups(admins, e), Groups(admins, f);
    match e
    case InterviewScheduled(app, _, message, adminMessage) =>
      SameOne(a[0][0], b[0][0]);
      SameAdmins(admins, "Interview Scheduled", adminMessage, f.adminMessage, "Application",
                 "interview-scheduled-admin:" + app);
    case ApplicationStatusChanged(_, _, status, jobTitle) =>
      SameStatusesHaveCopy(status, jobTitle, f.jobTitle);
      if StatusCopy(status, jobTitle).Some? {
        SameOne(a[0][0], b[0][0]);
      }
    case JobSubmittedForApproval(job, adminMessage) =>
      SameAdmins(admins, "New Job Pending Approval", adminMessage, f.adminMessage, "Moderation", "job-submitted:" + job);
    case JobApproved(job, owner, message, candidateMessage, matched) =>
      SameApproval(admins, e, f);
  }

  /**
   * Publishing an interview, status-change, job-submission or job-approval event again at once creates nothing and
   * emits nothing, even where the first attempt stopped half-way.
   */
  lemma ImmediateRepeatDoesNothing(w: World, e: Event, f: Event)
    requires SameSubject(e, f) && NoRepeats(w.admins) && (e.JobApproved? ==> f.matched == e.matched && NoRepeats(e.matched))
    ensures Published(Published(w, e), f) == Published(w, e)
  {
    hide Groups, SameSubject, Handled, SameGroups, Distinct, UniqueKeys;
    HandledGrows(w, Groups(w.admins, e));
    SameSubjectSameGroups(w.admins, e, f);
    GroupsDistinct(w.admins, e);
    ReplayDoesNothing(w, Groups(w.admins, e), Groups(w.admins, f));
  }

  // ------------------------------------------------------------------ replays with other events in between

  /** The group in which handling stops because one of its creations throws, or the number of groups. */
  function StoppedAt(w: World, groups: seq<seq<Notification>>): (k: nat)
    ensures k <= |groups|
    decreases |groups|
  {
    if groups == [] || SomeThrows(w, groups[0]) then 0 else 1 + StoppedAt(AllCreated(w, groups[0]), groups[1..])
  }

  predicate Keyed(ns: seq<Notification>)
  {
    forall i :: 0 <= i < |ns| ==> ns[i].dedupeKey.Some?
  }

  ghost predicate AllTaken(w: World, ns: seq<Notification>)
  {
    forall i :: 0 <= i < |ns| ==> IsDuplicate(w, ns[i])
  }

  /** Every group that went through has all its keys taken, whatever the later groups did. */
  lemma {:induction false} FinishedGroupsAreTaken(w: World, groups: seq<seq<Notification>>, g: nat)
    requires g < StoppedAt(w, groups) && Keyed(groups[g])
    ensures AllTaken(Handled(w, groups), groups[g])
    decreases |groups|
  {
    hide HasKey, UniqueKeys;
    var first := AllCreated(w, groups[0]);
    if g == 0 {
      NoThrowTakesEveryKey(w, groups[0]);
      HandledGrows(first, groups[1..]);
      forall i | 0 <= i < |groups[0]|
        ensures IsDuplicate(Handled(w, groups), groups[0][i])
      {
        DuplicateStays(first, Handled(w, groups), groups[0][i]);
      }
    } else {
      assert groups[1..][g - 1] == groups[g];
      FinishedGroupsAreTaken(first, groups[1..], g - 1);
    }
  }

  /** The keys of `b` are among those of `a`; recipients, texts and numbers may differ. */
  ghost predicate KeysWithin(b: seq<Notification>, a: seq<Notification>)
  {
    forall i :: 0 <= i < |b| ==> b[i].dedupeKey.Some? && exists j :: 0 <= j < |a| && a[j].dedupeKey == b[i].dedupeKey
  }

  ghost predicate GroupsWithin(b: seq<seq<Notification>>, a: seq<seq<Notification>>)
  {
    |b| == |a| && forall g :: 0 <= g < |b| ==> Keyed(a[g]) && KeysWithin(b[g], a[g])
  }

  lemma TakenWithin(w: World, w': World, b: seq<Notification>, a: seq<Notification>)
    requires KeysWithin(b, a) && AllTaken(w, a) && w.rows <= w'.rows
    ensures AllTaken(w', b)
  {
    forall i | 0 <= i < |b|
      ensures IsDuplicate(w', b[i])
    {
      var j :| 0 <= j < |a| && a[j].dedupeKey == b[i].dedupeKey;
      assert IsDuplicate(w, a[j]);
      var k :| 0 <= k < |w.rows| && w.rows[k].dedupeKey == Some(a[j].dedupeKey.value);
      assert w'.rows[k].dedupeKey == Some(b[i].dedupeKey.value);
    }
  }

  /** Groups whose keys are all taken are passed over. */
  lemma {:induction false} TakenGroupsDoNothing(w: World, groups: seq<seq<Notification>>, k: nat)
    requires k <= |groups| && forall g :: 0 <= g < k ==> AllTaken(w, groups[g])
    ensures Handled(w, groups) == Handled(w, groups[k..])
    decreases k
  {
    hide IsDuplicate;
    if k == 0 {
      assert groups[0..] == groups;
    } else {
      assert AllTaken(w, groups[0]);
      InertDoesNothing(w, groups[0]);
      forall g | 0 <= g < k - 1
        ensures AllTaken(w, groups[1..][g])
      {
        assert groups[1..][g] == groups[g + 1];
      }
      TakenGroupsDoNothing(w, groups[1..], k - 1);
      assert groups[1..][k - 1..] == groups[k..];
    }
  }

  /** The event comes again, about the same thing, to some of the same people. */
  ghost predicate ComesAgain(admins: seq<Id>, e: Event, again: seq<Id>, f: Event)
  {
    && SameSubject(e, f)
    && (forall a :: a in again ==> a in admins)
    && (e.JobApproved? ==> forall c :: c in f.matched ==> c in e.matched)
  }

  lemma AdminKeysWithin(admins: seq<Id>, again: seq<Id>, title: string, message: string, other: string, category: string,
                        prefix: string)
    requires forall a :: a in again ==> a in admins
    ensures var ns := ForAdmins(admins, title, message, category, prefix);
            Keyed(ns) && KeysWithin(ForAdmins(again, title, other, category, prefix), ns)
  {
    var a, b := ForAdmins(admins, title, message, category, prefix), ForAdmins(again, title, other, category, prefix);
    forall i | 0 <= i < |b|
      ensures exists j :: 0 <= j < |a| && a[j].dedupeKey == b[i].dedupeKey
    {
      assert again[i] in admins;
      var j :| 0 <= j < |admins| && admins[j] == again[i];
      assert a[j].dedupeKey == b[i].dedupeKey;
    }
  }

  lemma CandidateKeysWithin(job: Id, message: string, other: string, matched: seq<Id>, again: seq<Id>)
    requires forall c :: c in again ==> c in matched
    ensures var ns := ForCandidates(job, message, matched);
            Keyed(ns) && KeysWithin(ForCandidates(job, other, again), ns)
  {
    var a, b := ForCandidates(job, message, matched), ForCandidates(job, other, again);
    forall i | 0 <= i < |b|
      ensures exists j :: 0 <= j < |a| && a[j].dedupeKey == b[i].dedupeKey
    {
      assert again[i] in matched;
      var j :| 0 <= j < |matched| && matched[j] == again[i];
      assert a[j].dedupeKey == b[i].dedupeKey;
    }
  }

  lemma OneKeyWithin(n: Notification, m: Notification)
    requires n.dedupeKey.Some? && n.dedupeKey == m.dedupeKey
    ensures Keyed([n]) && KeysWithin([m], [n])
  {
    assert [n][0].dedupeKey == [m][0].dedupeKey;
  }

  lemma ComesAgainWithin(admins: seq<Id>, e: Event, again: seq<Id>, f: Event)
    requires ComesAgain(admins, e, again, f)
    ensures GroupsWithin(Groups(again, f), Groups(admins, e))
  {
    hide ForAdmins, ForCandidates, KeysWithin, Keyed, StatusCopy;
    var a, b := Groups(admins, e), Groups(again, f);
    match e
    case InterviewScheduled(app, _, message, adminMessage) =>
      OneKeyWithin(a[0][0], b[0][0]);
      AdminKeysWithin(admins, again, "Interview Scheduled", adminMessage, f.adminMessage, "Application",
                      "interview-scheduled-admin:" + app);
    case ApplicationStatusChanged(_, _, status, jobTitle) =>
      SameStatusesHaveCopy(status, jobTitle, f.jobTitle);
      if StatusCopy(status, jobTitle).Some? {
        OneKeyWithin(a[0][0], b[0][0]);
      }
    case JobSubmittedForApproval(job, adminMessage) =>
      AdminKeysWithin(admins, again, "New Job Pending Approval", adminMessage, f.adminMessage, "Moderation",
                      "job-submitted:" + job);
    case JobApproved(job, owner, message, candidateMessage, matched) =>
      if owner.Some? {
        OneKeyWithin(a[0][0], b[0][0]);
      }
      CandidateKeysWithin(job, candidateMessage, f.candidateMessage, matched, f.matched);
  }

  /** What a repeated event finds: the rows then, with the users and active admins there are by then. */
  function Later(w: World, e: Event, run: seq<Occurrence>, users: set<Id>, admins: seq<Id>): World
  {
    AllPublished(Published(w, e), run).(users := users, admins := admins)
  }

  /**
   * Whatever has been published in between, the repeated event goes on with the group in which the first one
   * stopped: the recipients before that get nothing.
   */
  lemma RepeatedEventResumes(w: World, e: Event, run: seq<Occurrence>, users: set<Id>, again: seq<Id>, f: Event)
    requires ComesAgain(w.admins, e, again, f)
    ensures var k, groups := StoppedAt(w, Groups(w.admins, e)), Groups(again, f);
            && k <= |groups|
            && Published(Later(w, e, run, users, again), f) == Handled(Later(w, e, run, users, again), groups[k..])
  {
    hide Groups, AllPublished, StoppedAt, Handled, ComesAgain, AllTaken, KeysWithin;
    var a, b, now := Groups(w.admins, e), Groups(again, f), Later(w, e, run, users, again);
    ComesAgainWithin(w.admins, e, again, f);
    EveryRunKeepsKeysUnique(Published(w, e), run);
    forall g | 0 <= g < StoppedAt(w, a)
      ensures AllTaken(now, b[g])
    {
      FinishedGroupsAreTaken(w, a, g);
      TakenWithin(Published(w, e), now, b[g], a[g]);
    }
    TakenGroupsDoNothing(now, b, StoppedAt(w, a));
  }

  /**
   * So an interview, status-change, job-submission or job-approval event whose handler went through once creates
   * and emits nothing for the same people again, however much later. That includes a rescheduled interview, and
   * the interview or status of a later hiring cycle of the same application, after a withdrawal and a reapply:
   * neither the date nor the cycle is part of the key, so the candidate is not told.
   */
  lemma RepeatedEventDoesNothing(w: World, e: Event, run: seq<Occurrence>, users: set<Id>, again: seq<Id>, f: Event)
    requires ComesAgain(w.admins, e, again, f) && StoppedAt(w, Groups(w.admins, e)) == |Groups(w.admins, e)|
    ensures Published(Later(w, e, run, users, again), f) == Later(w, e, run, users, again)
  {
    hide Groups, ComesAgain, StoppedAt, Later;
    ComesAgainWithin(w.admins, e, again, f);
    RepeatedEventResumes(w, e, run, users, again, f);
  }

  // ------------------------------------------------------------------ which rows come into being

  /** Those of the notifications whose key is free and whose recipient exists. */
  function NewOnes(w: World, ns: seq<Notification>): seq<Notification>
  {
    Where(ns, (n: Notification) => !Inert(w, n))
  }

  /** A group with distinct keys creates and emits exactly those. */
  lemma {:induction false} CreatesExactlyTheNew(w: World, ns: seq<Notification>)
    requires Distinct(ns)
    ensures AllCreated(w, ns).rows == w.rows + NewOnes(w, ns) && AllCreated(w, ns).emits == w.emits + NewOnes(w, ns)
  {
    if ns != [] {
      var n := |ns| - 1;
      var before := AllCreated(w, ns[..n]);
      CreatesExactlyTheNew(w, ns[..n]);
      AllCreatedGrows(w, ns[..n]);
      forall i | |w.rows| <= i < |before.rows|
        ensures before.rows[i].dedupeKey != ns[n].dedupeKey
      {
        assert before.rows[i] in NewOnes(w, ns[..n]);
      }
      if IsDuplicate(w, ns[n]) {
        DuplicateStays(w, before, ns[n]);
      }
    }
  }

  /** An event that comes again after its first handling stopped half-way starts with exactly those of that group. */
  lemma ResumedGroupCreatesTheNew(w: World, e: Event, run: seq<Occurrence>, users: set<Id>, again: seq<Id>, f: Event)
    requires ComesAgain(w.admins, e, again, f) && NoRepeats(again) && (f.JobApproved? ==> NoRepeats(f.matched))
    requires StoppedAt(w, Groups(w.admins, e)) < |Groups(again, f)|
    ensures var now, group := Later(w, e, run, users, again), Groups(again, f)[StoppedAt(w, Groups(w.admins, e))];
            && now.rows + NewOnes(now, group) <= Published(now, f).rows
            && now.emits + NewOnes(now, group) <= Published(now, f).emits
            && (SomeThrows(now, group) ==> Published(now, f).rows == now.rows + NewOnes(now, group))
  {
    hide Groups, ComesAgain, StoppedAt, Later, Distinct, NewOnes, AllCreated, SomeThrows;
    var now, k, groups := Later(w, e, run, users, again), StoppedAt(w, Groups(w.admins, e)), Groups(again, f);
    GroupsDistinct(again, f);
    RepeatedEventResumes(w, e, run, users, again, f);
    CreatesExactlyTheNew(now, groups[k]);
    HandledGrows(AllCreated(now, groups[k]), groups[k..][1..]);
  }

  /** The job-approval handler, step by step. */
  lemma PublishedJobApproved(
      w: World, job: Id, owner: Option<Id>, message: string, candidateMessage: string, matched: seq<Id>)
    ensures var w' := Published(w, JobApproved(job, owner, message, candidateMessage, matched));
            var candidates := ForCandidates(job, candidateMessage, matched);
            if owner.None? then w' == AllCreated(w, candidates)
            else if Throws(w, ForOwner(job, owner.value, message)) then w' == Created(w, ForOwner(job, owner.value, message))
            else w' == AllCreated(Created(w, ForOwner(job, owner.value, message)), candidates)
  {
    hide Created, ForOwner, ForCandidates, Throws;
    var candidates := ForCandidates(job, candidateMessage, matched);
    var groups := Groups(w.admins, JobApproved(job, owner, message, candidateMessage, matched));
    if owner.Some? {
      var own := ForOwner(job, owner.value, message);
      assert groups == [[own], candidates];
      HandledTwo(w, groups);
    } else {
      assert groups == [candidates];
      HandledLast(w, candidates);
    }
  }

  lemma KeyStays(w: World, w': World, key: string)
    requires HasKey(w, key) && w.rows <= w'.rows
    ensures HasKey(w', key)
  {
    var i :| 0 <= i < |w.rows| && w.rows[i].dedupeKey == Some(key);
    assert w'.rows[i].dedupeKey == Some(key);
  }

  /** An approval that went through has taken the key of the owner, and that of every matched candidate. */
  lemma ApprovalTakesItsKeys(w: World, e: Event, run: seq<Occurrence>, users: set<Id>, again: seq<Id>)
    requires e.JobApproved? && StoppedAt(w, Groups(w.admins, e)) == |Groups(w.admins, e)|
    ensures var now := Later(w, e, run, users, again);
            && (e.owner.Some? ==> HasKey(now, "job-approved-recruiter:" + e.job))
            && forall c :: c in e.matched ==> HasKey(now, "job-approved-candidate:" + e.job + ":" + c)
  {
    hide StoppedAt, AllPublished, Handled, HasKey, ForCandidates;
    var now, groups := Later(w, e, run, users, again), Groups(w.admins, e);
    var candidates := ForCandidates(e.job, e.candidateMessage, e.matched);
    EveryRunKeepsKeysUnique(Published(w, e), run);
    assert groups[|groups| - 1] == candidates;
    forall c | c in e.matched
      ensures HasKey(now, "job-approved-candidate:" + e.job + ":" + c)
    {
      CandidateIsNotified(e.job, e.candidateMessage, e.matched, c);
      FinishedGroupsAreTaken(w, groups, |groups| - 1);
      KeyStays(Published(w, e), now, "job-approved-candidate:" + e.job + ":" + c);
    }
    if e.owner.Some? {
      assert groups[0] == [ForOwner(e.job, e.owner.value, e.message)];
      FinishedGroupsAreTaken(w, groups, 0);
      assert IsDuplicate(Published(w, e), groups[0][0]);
      KeyStays(Published(w, e), now, "job-approved-recruiter:" + e.job);
    }
  }

  lemma CandidateIsNotified(job: Id, message: string, matched: seq<Id>, c: Id)
    requires c in matched
    ensures var ns := ForCandidates(job, message, matched);
            && Keyed(ns)
            && exists i :: 0 <= i < |ns| && ns[i].dedupeKey == Some("job-approved-candidate:" + job + ":" + c)
  {
    var ns := ForCandidates(job, message, matched);
    var i :| 0 <= i < |matched| && matched[i] == c;
    assert ns[i].dedupeKey == Some("job-approved-candidate:" + job + ":" + c);
  }

  lemma CandidateNotice(job: Id, message: string, matched: seq<Id>, n: Notification)
    requires n in ForCandidates(job, message, matched)
    ensures n.recipient in matched && n.dedupeKey == Some("job-approved-candidate:" + job + ":" + n.recipient)
  {
  }

  /** Approving a job again, whatever came in between, notifies exactly the candidates newly matched by then. */
  lemma SecondApprovalExactly(w: World, e: Event, run: seq<Occurrence>, users: set<Id>, again: seq<Id>, f: Event)
    requires e.JobApproved? && f.JobApproved? && f.job == e.job && f.owner == e.owner && NoRepeats(f.matched)
    requires StoppedAt(w, Groups(w.admins, e)) == |Groups(w.admins, e)|
    ensures var now := Later(w, e, run, users, again);
            var rows := NewOnes(now, ForCandidates(f.job, f.candidateMessage, f.matched));
            && Published(now, f).rows == now.rows + rows && Published(now, f).emits == now.emits + rows
            && forall n :: n in rows ==> n.recipient in f.matched && n.recipient !in e.matched
  {
    hide StoppedAt, Later, Published, Groups, ForCandidates, HasKey, Distinct, AllCreated, Where;
    var now := Later(w, e, run, users, again);
    var candidates := ForCandidates(f.job, f.candidateMessage, f.matched);
    ApprovalTakesItsKeys(w, e, run, users, again);
    PublishedJobApproved(now, f.job, f.owner, f.message, f.candidateMessage, f.matched);
    CandidateKeysDistinct(f.job, f.candidateMessage, f.matched);
    CreatesExactlyTheNew(now, candidates);
    forall n | n in NewOnes(now, candidates)
      ensures n.recipient in f.matched && n.recipient !in e.matched
    {
      CandidateNotice(f.job, f.candidateMessage, f.matched, n);
    }
  }

  lemma HandledTwo(w: World, groups: seq<seq<Notification>>)
    requires |groups| == 2 && |groups[0]| == 1
    ensures AllCreated(w, groups[0]) == Created(w, groups[0][0]) && (SomeThrows(w, groups[0]) <==> Throws(w, groups[0][0]))
    ensures Handled(w, groups)
         == if SomeThrows(w, groups[0]) then AllCreated(w, groups[0]) else AllCreated(AllCreated(w, groups[0]), groups[1])
  {
    assert groups[0][..0] == [] && !SomeThrows(w, []) && AllCreated(w, []) == w;
    assert groups[1..] == [groups[1]] && groups[1..][1..] == [];
    var v := AllCreated(w, groups[0]);
    assert Handled(AllCreated(v, groups[1]), []) == AllCreated(v, groups[1]);
    assert Handled(v, groups[1..]) == AllCreated(v, groups[1]);
  }

  lemma HandledLast(w: World, ns: seq<Notification>)
    ensures Handled(w, [ns]) == AllCreated(w, ns)
  {
    assert [ns][1..] == [];
    assert Handled(AllCreated(w, ns), []) == AllCreated(w, ns);
  }

  lemma HandledOne(w: World, n: Notification)
    ensures Handled(w, [[n]]) == Created(w, n)
  {
    assert [n][..0] == [] && [[n]][1..] == [];
    assert AllCreated(w, []) == w && AllCreated(w, [n]) == Created(w, n);
    assert Handled(Created(w, n), []) == Created(w, n);
  }

  /** The two application events that start with an unkeyed row create one every time their recipient exists. */
  lemma UnkeyedEventsRepeat(w: World, e: Event)
    requires e.ApplicationSubmitted? || e.OfferReleased?
    ensures Published(w, e) == w <==> (if e.ApplicationSubmitted? then e.recruiter else e.candidate) !in w.users
  {
    var groups := Groups(w.admins, e);
    var n: Notification := groups[0][0];
    HandledTwo(w, groups);
    if n.recipient in w.users {
      AllCreatedGrows(Created(w, n), groups[1]);
      assert |Created(w, n).rows| == |w.rows| + 1;
    }
  }

  // ------------------------------------------------------------------ who has been told what

  ghost predicate IsTaken(rows: seq<Notification>, key: Option<string>)
  {
    key.Some? && exists i :: 0 <= i < |rows| && rows[i].dedupeKey == key
  }

  /** One notification: a row and an emit, unless its key is taken or its recipient does not exist. */
  ghost predicate IsTold(before: World, after: World, n: Notification)
  {
    if IsTaken(before.rows, n.dedupeKey) || n.recipient !in before.users then after == before
    else after == before.(rows := before.rows + [n], emits := before.emits + [n])
  }

  ghost predicate IsRefused(before: World, n: Notification)
  {
    !IsTaken(before.rows, n.dedupeKey) && n.recipient !in before.users
  }

  ghost predicate IsForOneOf(n: Notification, to: seq<Id>, title: string, message: string, category: string, url: string,
                             prefix: string)
  {
    exists j :: 0 <= j < |to| && n == Notification(to[j], title, message, category, url, Some(prefix + ":" + to[j]))
  }

  /**
   * The same notification for each of these, each under their own key: whoever of them exists has a row under their
   * key afterwards, every new row is such a notification, and there is one emit per new row.
   */
  ghost predicate AreTold(before: World, after: World, to: seq<Id>, title: string, message: string, category: string,
                          url: string, prefix: string)
  {
    && after.users == before.users && after.admins == before.admins
    && before.rows <= after.rows && before.emits <= after.emits
    && after.rows[|before.rows|..] == after.emits[|before.emits|..]
    && (forall i :: |before.rows| <= i < |after.rows| ==>
          IsForOneOf(after.rows[i], to, title, message, category, url, prefix))
    && (forall j :: 0 <= j < |to| && to[j] in before.users ==> IsTaken(after.rows, Some(prefix + ":" + to[j])))
  }

  /** New rows are some of the notifications, and every one whose recipient exists has its key taken. */
  lemma {:induction false} AllCreatedAreThese(w: World, ns: seq<Notification>)
    ensures forall i :: |w.rows| <= i < |AllCreated(w, ns).rows| ==> AllCreated(w, ns).rows[i] in ns
    ensures forall i :: 0 <= i < |ns| && ns[i].dedupeKey.Some? && ns[i].recipient in w.users
                        ==> IsTaken(AllCreated(w, ns).rows, ns[i].dedupeKey)
  {
    if ns != [] {
      var n := |ns| - 1;
      var before, after := AllCreated(w, ns[..n]), AllCreated(w, ns);
      AllCreatedAreThese(w, ns[..n]);
      AllCreatedGrows(w, ns[..n]);
      CreatedGrows(before, ns[n]);
      forall i | 0 <= i < |ns| && ns[i].dedupeKey.Some? && ns[i].recipient in w.users
        ensures IsTaken(after.rows, ns[i].dedupeKey)
      {
        if i < n {
          assert IsTaken(before.rows, ns[..n][i].dedupeKey);
          var k :| 0 <= k < |before.rows| && before.rows[k].dedupeKey == ns[i].dedupeKey;
          assert after.rows[k].dedupeKey == ns[i].dedupeKey;
        } else if HasKey(before, ns[n].dedupeKey.value) {
          assert after == before;
        } else {
          assert after.rows[|before.rows|] == ns[n];
        }
      }
    }
  }

  lemma AdminsAreTold(w: World, to: seq<Id>, title: string, message: string, category: string, prefix: string)
    ensures AreTold(w, AllCreated(w, ForAdmins(to, title, message, category, prefix)), to, title, message, category,
                    "/admin/job-moderation", prefix)
  {
    hide AllCreated;
    var ns := ForAdmins(to, title, message, category, prefix);
    AllCreatedGrows(w, ns);
    AllCreatedAreThese(w, ns);
    var after := AllCreated(w, ns);
    forall i | |w.rows| <= i < |after.rows|
      ensures IsForOneOf(after.rows[i], to, title, message, category, "/admin/job-moderation", prefix)
    {
      var j :| 0 <= j < |ns| && ns[j] == after.rows[i];
      assert ns[j].recipient == to[j];
    }
    forall j | 0 <= j < |to| && to[j] in w.users
      ensures IsTaken(after.rows, Some(prefix + ":" + to[j]))
    {
      assert ns[j].recipient == to[j];
    }
  }

  lemma CandidatesAreTold(w: World, job: Id, message: string, to: seq<Id>)
    ensures AreTold(w, AllCreated(w, ForCandidates(job, message, to)), to, "New Job Match", message, "Job",
                    "/candidate/jobs/" + job, "job-approved-candidate:" + job)
  {
    hide AllCreated;
    var ns := ForCandidates(job, message, to);
    AllCreatedGrows(w, ns);
    AllCreatedAreThese(w, ns);
    var after := AllCreated(w, ns);
    forall i | |w.rows| <= i < |after.rows|
      ensures IsForOneOf(after.rows[i], to, "New Job Match", message, "Job", "/candidate/jobs/" + job,
                         "job-approved-candidate:" + job)
    {
      var j :| 0 <= j < |ns| && ns[j] == after.rows[i];
      assert ns[j].recipient == to[j];
    }
    forall j | 0 <= j < |to| && to[j] in w.users
      ensures IsTaken(after.rows, Some("job-approved-candidate:" + job + ":" + to[j]))
    {
      assert ns[j].recipient == to[j];
    }
  }

  lemma CreatedIsTold(w: World, n: Notification)
    ensures IsTold(w, Created(w, n), n) && (Throws(w, n) <==> IsRefused(w, n))
  {
  }

  // ------------------------------------------------------------------ the listener

  class NotificationListener {
    var users: set<Id>
    var admins: seq<Id>
    var rows: seq<Notification>
    var emits: seq<Notification>

    ghost function View(): World
      reads this
    {
      World(users, admins, rows, emits)
    }

    constructor (users: set<Id>, admins: seq<Id>)
      ensures View() == World(users, admins, [], [])
    {
      this.users, this.admins, rows, emits := users, admins, [], [];
    }

    method CreateAndEmitNotification(n: Notification) returns (threw: bool)
      modifies `rows, `emits
      ensures View() == Created(old(View()), n) && threw == Throws(old(View()), n)
      ensures IsTold(old(View()), View(), n) && (threw <==> IsRefused(old(View()), n))
    {
      if n.dedupeKey.Some? && exists i :: 0 <= i < |rows| && rows[i].dedupeKey == Some(n.dedupeKey.value) {
        return false;
      }
      if n.recipient !in users {
        return true;
      }
      rows := rows + [n];
      emits := emits + [n];
      threw := false;
    }

    /** `Promise.all` over the given creations. */
    method CreateAll(ns: seq<Notification>) returns (threw: bool)
      modifies `rows, `emits
      ensures View() == AllCreated(old(View()), ns) && threw == SomeThrows(old(View()), ns)
    {
      threw := false;
      for i := 0 to |ns|
        invariant View() == AllCreated(old(View()), ns[..i]) && threw == SomeThrows(old(View()), ns[..i])
      {
        assert ns[..i + 1][..i] == ns[..i];
        var failed := CreateAndEmitNotification(ns[i]);
        threw := threw || failed;
      }
      assert ns[..|ns|] == ns;
    }

    method NotifyActiveAdmins(title: string, message: string, category: string, prefix: string) returns (threw: bool)
      modifies `rows, `emits
      ensures var ns := ForAdmins(old(admins), title, message, category, prefix);
              View() == AllCreated(old(View()), ns) && threw == SomeThrows(old(View()), ns)
      ensures AreTold(old(View()), View(), admins, title, message, category, "/admin/job-moderation", prefix)
    {
      hide AreTold;
      AdminsAreTold(View(), admins, title, message, category, prefix);
      threw := CreateAll(ForAdmins(admins, title, message, category, prefix));
    }

    /** One notification, then, unless that failed, one for every active admin. */
    method NotifyThenAdmins(own: Notification, title: string, message: string, category: string, prefix: string)
      returns (ghost first: World)
      modifies `rows, `emits
      ensures View() == Handled(old(View()), [[own], ForAdmins(old(admins), title, message, category, prefix)])
      ensures IsTold(old(View()), first, own)
      ensures if IsRefused(old(View()), own) then View() == first
              else AreTold(first, View(), admins, title, message, category, "/admin/job-moderation", prefix)
    {
      hide AreTold, IsTold, IsRefused;
      HandledTwo(View(), [[own], ForAdmins(admins, title, message, category, prefix)]);
      var threw := CreateAndEmitNotification(own);
      first := View();
      if !threw {
        threw := NotifyActiveAdmins(title, message, category, prefix);
      }
    }

    method OnInterviewScheduled(app: Id, candidate: Id, message: string, adminMessage: string)
      returns (ghost first: World)
      modifies `rows, `emits
      ensures View() == Published(old(View()), InterviewScheduled(app, candidate, message, adminMessage))
      ensures var own := Notification(candidate, "Interview Scheduled!", message, "Application", "/candidate/applications",
                                       Some("interview-scheduled-candidate:" + app));
              && IsTold(old(View()), first, own)
              && if IsRefused(old(View()), own) then View() == first
                 else AreTold(first, View(), admins, "Interview Scheduled", adminMessage, "Application", "/admin/job-moderation",
                              "interview-scheduled-admin:" + app)
    {
      hide AreTold, IsTold, IsRefused, Handled;
      first := NotifyThenAdmins(Notification(candidate, "Interview Scheduled!", message, "Application", "/candidate/applications",
                                    Some("interview-scheduled-candidate:" + app)),
                       "Interview Scheduled", adminMessage, "Application", "interview-scheduled-admin:" + app);
    }

    method OnApplicationSubmitted(app: Id, recruiter: Id, message: string, adminMessage: string)
      returns (ghost first: World)
      modifies `rows, `emits
      ensures View() == Published(old(View()), ApplicationSubmitted(app, recruiter, message, adminMessage))
      ensures var own := Notification(recruiter, "New Application Received", message, "Application",
                                       "/recruiter/applicants/" + app, None);
              && IsTold(old(View()), first, own)
              && if IsRefused(old(View()), own) then View() == first
                 else AreTold(first, View(), admins, "New Job Application", adminMessage, "Application", "/admin/job-moderation",
                              "application-submitted:" + app)
    {
      hide AreTold, IsTold, IsRefused, Handled;
      first := NotifyThenAdmins(Notification(recruiter, "New Application Received", message, "Application",
                                    "/recruiter/applicants/" + app, None),
                       "New Job Application", adminMessage, "Application", "application-submitted:" + app);
    }

    method OnOfferReleased(app: Id, candidate: Id, message: string, adminMessage: string)
      returns (ghost first: World)
      modifies `rows, `emits
      ensures View() == Published(old(View()), OfferReleased(app, candidate, message, adminMessage))
      ensures var own := Notification(candidate, "Job Offer Released!", message, "Application", "/candidate/applications", None);
              && IsTold(old(View()), first, own)
              && if IsRefused(old(View()), own) then View() == first
                 else AreTold(first, View(), admins, "Offer Released", adminMessage, "Application", "/admin/job-moderation",
                              "offer-released-admin:" + app)
    {
      hide AreTold, IsTold, IsRefused, Handled;
      first := NotifyThenAdmins(Notification(candidate, "Job Offer Released!", message, "Application", "/candidate/applications",
                                             None),
                                "Offer Released", adminMessage, "Application", "offer-released-admin:" + app);
    }

    method OnApplicationStatusChanged(app: Id, candidate: Id, status: string, jobTitle: string)
      modifies `rows, `emits
      ensures View() == Published(old(View()), ApplicationStatusChanged(app, candidate, status, jobTitle))
      ensures var (title, message) :=
                if status == "Reviewed" then
                  ("Application Under Review", "Your application for " + jobTitle + " is now under review.")
                else if status == "Shortlisted" then
                  ("You've Been Shortlisted!", "Great news! You've been shortlisted for " + jobTitle + ".")
                else if status == "Hired" then
                  ("Congratulations \U{2014} You're Selected!",
                   "You've been selected for " + jobTitle + "! The recruiter will be in touch with next steps.")
                else
                  ("Application Update",
                   "Thank you for your interest in " + jobTitle
                   + ". The recruiter has decided not to move forward with your application at this time.");
              if status == "Reviewed" || status == "Shortlisted" || status == "Hired" || status == "Rejected"
              then IsTold(old(View()), View(), Notification(candidate, title, message, "Application", "/candidate/applications",
                                                            Some("application-status:" + app + ":" + status)))
              else View() == old(View())
    {
      var copy := StatusCopy(status, jobTitle);
      if copy.None? {
        return;
      }
      var own := Notification(candidate, copy.value.0, copy.value.1, "Application", "/candidate/applications",
                              Some("application-status:" + app + ":" + status));
      HandledOne(old(View()), own);
      var threw := CreateAndEmitNotification(own);
    }

    method OnJobSubmittedForApproval(job: Id, adminMessage: string)
      modifies `rows, `emits
      ensures View() == Published(old(View()), JobSubmittedForApproval(job, adminMessage))
      ensures AreTold(old(View()), View(), admins, "New Job Pending Approval", adminMessage, "Moderation",
                      "/admin/job-moderation", "job-submitted:" + job)
    {
      hide AreTold;
      HandledLast(View(), ForAdmins(admins, "New Job Pending Approval", adminMessage, "Moderation", "job-submitted:" + job));
      var threw := NotifyActiveAdmins("New Job Pending Approval", adminMessage, "Moderation", "job-submitted:" + job);
    }

    /** The owner first, then the candidates `findMatchedCandidateUserIds` finds; a failure stops the handler. */
    method OnJobApproved(job: Id, owner: Option<Id>, message: string, candidateMessage: string, tables: Matching.Tables,
                         lower: string -> string, location: Option<string>)
      returns (matched: seq<Id>, ghost first: World)
      requires lower("") == ""
      modifies `rows, `emits
      ensures View() == Published(old(View()), JobApproved(job, owner, message, candidateMessage, matched))
      ensures NoRepeats(matched) && |matched| <= Matching.MAX_MATCHED_CANDIDATES
      ensures owner.None? ==> first == old(View())
      ensures owner.Some? ==> IsTold(old(View()), first, Notification(owner.value, "Job Posting Approved", message, "Moderation",
                                                                      "/recruiter/jobs/" + job,
                                                                      Some("job-approved-recruiter:" + job)))
      ensures if owner.Some? && owner.value !in users && !IsTaken(old(rows), Some("job-approved-recruiter:" + job))
              then View() == first && matched == []
              else AreTold(first, View(), matched, "New Job Match", candidateMessage, "Job", "/candidate/jobs/" + job,
                           "job-approved-candidate:" + job)
    {
      hide Published, Groups, Handled, AllCreated, SomeThrows, ForCandidates, IsDuplicate, AreTold;
      ghost var w := View();
      first := w;
      matched := [];
      if owner.Some? {
        PublishedJobApproved(w, job, owner, message, candidateMessage, matched);
        var threw := CreateAndEmitNotification(ForOwner(job, owner.value, message));
        first := View();
        if threw {
          return;
        }
      }
      matched := Matching.FindMatchedCandidateUserIds(tables, lower, job, location);
      PublishedJobApproved(w, job, owner, message, candidateMessage, matched);
      CandidatesAreTold(View(), job, candidateMessage, matched);
      var failed := CreateAll(ForCandidates(job, candidateMessage, matched));
    }
  }
}
