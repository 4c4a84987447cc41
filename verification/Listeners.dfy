/** The listeners of the back end: what each one publishes, and the rank that makes every drain end. */
module Listeners {
  import opened Handlers

  const AUDIT := "AuditCreated"

  /** Whatever a run of a handler publishes has one of these names. */
  ghost predicate OnlyNamed(s: Script, names: set<string>)
  {
    match s
    case Sync(es, _) => AllNamed(es, names)
    case Async(first, later, _) => AllNamed(first, names) && StretchesNamed(later, names)
  }

  ghost predicate AllNamed(es: seq<Event>, names: set<string>)
  {
    forall i :: 0 <= i < |es| ==> es[i].name in names
  }

  ghost predicate StretchesNamed(stretches: seq<seq<Event>>, names: set<string>)
  {
    forall i :: 0 <= i < |stretches| ==> AllNamed(stretches[i], names)
  }

  /** Without a rank there is no end: a handler that answers an event with the same event fits no rank at all. */
  lemma SelfPublishingHasNoRank(bus: Bus, rank: Rank, h: HandlerId, e: Event)
    requires bus.behave(h, e) == Sync([e], false)
    ensures !Ranked(bus, rank)
  {
    assert rank([e][0]) == rank(e);
    assert !ScriptBelow(rank, bus.behave(h, e), rank(e));
  }

  // ------------------------------------------------------------------ the handlers, one by one

  const NOTIFICATION: HandlerId := 0
  const EMAIL: HandlerId := 1
  const AUDIT_LOG: HandlerId := 2

  /**
   * What a handler's body does, as far as the bus can tell: it waits for the database, the queue or the
   * network some number of times (none, where a branch has nothing to do), it publishes an event, or it
   * catches whatever a part of it throws.
   */
  datatype Op = Waits | Publishes(name: string) | Try(body: seq<Op>)

  datatype Handler = Handler(isAsync: bool, body: seq<Op>)

  /** How a `Waits` goes: so many awaits, the last of which may fail. */
  datatype Wait = Wait(count: nat, fails: bool)

  /** Handlers that only record an audit event, synchronously. */
  const AUDIT_ONLY: set<string> := {
    "CandidateProfileUpdated", "ResumeUploaded", "ResumeDeleted", "JobReported", "FeatureFlagUpdated",
    "AdminFeatureFlagUpdated", "UserLoggedIn", "EmailVerified", "EmployeeInvitationAccepted", "PasswordChanged",
    "AccountDeleted", "PasswordResetRequested", "CompanySubmitted", "CompanyApproved", "CompanyRejected",
    "CompanyInfoRequested", "JobUpdated", "JobPaused", "JobResumed", "JobClosed"}

  /** Handlers that record and then notify, and catch their own failures. */
  const AUDIT_THEN_NOTIFY: set<string> := {
    "CompanyRegistered", "CompanyVerificationResubmitted", "CompanyDocumentUploaded", "PerkDocumentUploaded",
    "PerkSubmitted"}

  /** Handlers that notify first, and record when that worked. */
  const NOTIFY_THEN_AUDIT: set<string> := {
    "ApplicationSubmitted", "ApplicationWithdrawn", "InterviewScheduled", "OfferReleased", "JobRejected"}

  /** Handlers that only notify, and catch their own failures. */
  const NOTIFY_CAUGHT: set<string> := {
    "AdminAccountCreated", "RoleAssigned", "SupportTicketCreated", "SupportTicketStatusChanged",
    "SupportTicketCommentAdded", "AdminAccountStatusChanged"}

  /** E-mail handlers that catch their own failures. */
  const EMAIL_CAUGHT: set<string> := {
    "CompanyApproved", "CompanyRejected", "CompanyInfoRequested", "PerkReviewed", "JobApproved", "JobUpdated",
    "InterviewScheduled", "OfferReleased", "ApplicationStatusChanged"}

  function NotificationHandler(event: string): Handler
  {
    if event in AUDIT_ONLY then Handler(false, [Publishes(AUDIT)])
    else if event in AUDIT_THEN_NOTIFY then Handler(true, [Try([Publishes(AUDIT), Waits])])
    else if event in NOTIFY_THEN_AUDIT then Handler(true, [Waits, Publishes(AUDIT)])
    else if event == "PerkReviewed" then Handler(true, [Try([Waits, Publishes(AUDIT)])])
    else if event == "JobApproved" then Handler(true, [Publishes(AUDIT), Waits])
    else if event in NOTIFY_CAUGHT then Handler(true, [Try([Waits])])
    else Handler(true, [Waits])
  }

  function HandlerFor(h: HandlerId, event: string): Handler
  {
    if h == AUDIT_LOG then Handler(true, [Try([Waits])])
    else if h == EMAIL then Handler(true, if event in EMAIL_CAUGHT then [Try([Waits])] else [Waits])
    else NotificationHandler(event)
  }

  // ------------------------------------------------------------------ running a handler's body

  /** The stretches run so far (the last one is still open), the waits to come, and whether something threw. */
  datatype Progress = Progress(stretches: seq<seq<Event>>, waits: seq<Wait>, threw: bool)

  function RunOp(op: Op, p: Progress, payload: string): (q: Progress)
    requires p.stretches != []
    ensures |q.stretches| >= |p.stretches|
    decreases op, 0
  {
    match op
    case Publishes(name) =>
      var last := |p.stretches| - 1;
      p.(stretches := p.stretches[last := p.stretches[last] + [Event(name, payload)]])
    case Waits =>
      if p.waits == [] then p
      else
        var w := p.waits[0];
        Progress(p.stretches + seq(w.count, _ => []), p.waits[1..], w.fails && w.count > 0)
    case Try(body) => RunOps(body, p, payload).(threw := false)
  }

  function RunOps(ops: seq<Op>, p: Progress, payload: string): (q: Progress)
    requires p.stretches != []
    ensures |q.stretches| >= |p.stretches|
    decreases ops, 1
  {
    if ops == [] || p.threw then p else RunOps(ops[1..], RunOp(ops[0], p, payload), payload)
  }

  /** What the bus sees of one run of a handler. */
  function ScriptOf(handler: Handler, payload: string, waits: seq<Wait>): Script
  {
    var q := RunOps(handler.body, Progress([[]], waits, false), payload);
    if handler.isAsync then Async(q.stretches[0], q.stretches[1..], q.threw) else Sync(q.stretches[0], q.threw)
  }

  /** The body publishes under these names alone, at any depth. */
  predicate NamesWithin(ops: seq<Op>, names: set<string>)
  {
    forall i :: 0 <= i < |ops| ==>
      (ops[i].Publishes? ==> ops[i].name in names) && (ops[i].Try? ==> NamesWithin(ops[i].body, names))
  }

  lemma {:induction false} OpPublishesItsNames(op: Op, p: Progress, payload: string, names: set<string>)
    requires p.stretches != [] && StretchesNamed(p.stretches, names) && NamesWithin([op], names)
    ensures StretchesNamed(RunOp(op, p, payload).stretches, names)
    decreases op, 0
  {
    assert [op][0] == op;
    if op.Try? {
      BodyPublishesItsNames(op.body, p, payload, names);
    }
  }

  lemma {:induction false} BodyPublishesItsNames(ops: seq<Op>, p: Progress, payload: string, names: set<string>)
    requires p.stretches != [] && StretchesNamed(p.stretches, names) && NamesWithin(ops, names)
    ensures StretchesNamed(RunOps(ops, p, payload).stretches, names)
    decreases ops, 1
  {
    if ops != [] && !p.threw {
      OpPublishesItsNames(ops[0], p, payload, names);
      BodyPublishesItsNames(ops[1..], RunOp(ops[0], p, payload), payload, names);
    }
  }

  /** A handler publishes only under the names in its body, however its waits go and whatever throws. */
  lemma HandlersPublishTheirNames(handler: Handler, payload: string, waits: seq<Wait>, names: set<string>)
    requires NamesWithin(handler.body, names)
    ensures OnlyNamed(ScriptOf(handler, payload, waits), names)
  {
    BodyPublishesItsNames(handler.body, Progress([[]], waits, false), payload, names);
  }

  // ------------------------------------------------------------------ which buses drain

  /** Which handler a subscription runs for an event of a given name. */
  type Table = (HandlerId, string) -> Handler

  /** The bus runs the handlers of a table, their waits going in any way. */
  ghost predicate Runs(bus: Bus, table: Table)
  {
    forall h, e :: exists payload, waits :: bus.behave(h, e) == ScriptOf(table(h, e.name), payload, waits)
  }

  /** Every name a handler publishes under has a lower level than the name it listens to. */
  ghost predicate Levelled(table: Table, names: string -> set<string>, level: string -> nat)
  {
    forall h, name :: NamesWithin(table(h, name).body, names(name)) && forall n :: n in names(name) ==> level(n) < level(name)
  }

  /** If the names can be put on levels, the bus has a rank: publishing ends and draining ends. */
  lemma LevelledTablesHaveARank(bus: Bus, table: Table, names: string -> set<string>, level: string -> nat)
    requires Runs(bus, table) && Levelled(table, names, level)
    ensures Ranked(bus, (e: Event) => level(e.name))
  {
    hide ScriptOf, NamesWithin;
    forall h, e
      ensures ScriptBelow((e: Event) => level(e.name), bus.behave(h, e), level(e.name))
    {
      var payload, waits :| bus.behave(h, e) == ScriptOf(table(h, e.name), payload, waits);
      assert NamesWithin(table(h, e.name).body, names(e.name));
      HandlersPublishTheirNames(table(h, e.name), payload, waits, names(e.name));
    }
  }

  /** The audit event is below all the others. */
  function AuditLevel(name: string): nat
  {
    if name == AUDIT then 0 else 1
  }

  function OnlyAudit(name: string): set<string>
  {
    if name == AUDIT then {} else {AUDIT}
  }

  /** Going through the handlers: none publishes anything but the audit event, and in answer to that none does. */
  lemma ListenersPublishOnlyAudits(h: HandlerId, event: string)
    ensures NamesWithin(HandlerFor(h, event).body, OnlyAudit(event))
  {
    assert AUDIT !in AUDIT_ONLY && AUDIT !in AUDIT_THEN_NOTIFY && AUDIT !in NOTIFY_THEN_AUDIT;
  }

  /** Any bus made of these listeners drains, in whatever order their waits complete. */
  lemma ListenersHaveARank(bus: Bus)
    requires Runs(bus, HandlerFor)
    ensures Ranked(bus, (e: Event) => AuditLevel(e.name))
  {
    hide Runs, HandlerFor, NamesWithin;
    forall h, event
      ensures NamesWithin(HandlerFor(h, event).body, OnlyAudit(event))
    {
      ListenersPublishOnlyAudits(h, event);
    }
    LevelledTablesHaveARank(bus, HandlerFor, OnlyAudit, AuditLevel);
  }

  // ------------------------------------------------------------------ when the audit event is lost

  /** The first wait of a handler fails. */
  predicate FirstWaitFails(waits: seq<Wait>)
  {
    waits != [] && waits[0].fails && waits[0].count > 0
  }

  /** The events a script publishes, in any of its stretches. */
  ghost predicate Announces(s: Script, e: Event)
  {
    match s
    case Sync(es, _) => e in es
    case Async(first, later, _) => e in first || exists i :: 0 <= i < |later| && e in later[i]
  }

  lemma RecordedFirst(payload: string, waits: seq<Wait>)
    ensures var q := RunOps([Publishes(AUDIT), Waits], Progress([[]], waits, false), payload);
            q.stretches[0] == [Event(AUDIT, payload)] && (q.threw <==> FirstWaitFails(waits))
  {
    var p := Progress([[]], waits, false);
    var recorded := RunOp(Publishes(AUDIT), p, payload);
    assert [Publishes(AUDIT), Waits][1..] == [Waits] && [Waits][1..] == [];
    assert RunOps([Waits], recorded, payload) == RunOp(Waits, recorded, payload);
    var nothing: seq<Event> := [];
    assert nothing + [Event(AUDIT, payload)] == [Event(AUDIT, payload)];
  }

  lemma RecordedLast(payload: string, waits: seq<Wait>)
    ensures var q := RunOps([Waits, Publishes(AUDIT)], Progress([[]], waits, false), payload);
            && (q.threw <==> FirstWaitFails(waits))
            && (q.threw ==> forall i :: 0 <= i < |q.stretches| ==> q.stretches[i] == [])
            && (!q.threw ==> q.stretches[|q.stretches| - 1] == [Event(AUDIT, payload)])
  {
    var p := Progress([[]], waits, false);
    var waited := RunOp(Waits, p, payload);
    assert forall i :: 0 <= i < |waited.stretches| ==> waited.stretches[i] == [];
    assert [Waits, Publishes(AUDIT)][1..] == [Publishes(AUDIT)] && [Publishes(AUDIT)][1..] == [];
    if !waited.threw {
      assert RunOps([Publishes(AUDIT)], waited, payload) == RunOp(Publishes(AUDIT), waited, payload);
    } else {
      assert RunOps([Publishes(AUDIT)], waited, payload) == waited;
    }
  }

  lemma Caught(body: seq<Op>, p: Progress, payload: string)
    requires p.stretches != [] && !p.threw
    ensures RunOps([Try(body)], p, payload) == RunOps(body, p, payload).(threw := false)
  {
    assert [Try(body)][1..] == [];
  }

  /**
   * The four asynchronous handlers that record an audit event. The event is lost exactly when the handler
   * notifies before it records and the notification fails; the promise rejects exactly when the notification
   * fails and the handler does not catch.
   */
  lemma AuditLostExactly(caught: bool, recordFirst: bool, payload: string, waits: seq<Wait>)
    ensures var ops := if recordFirst then [Publishes(AUDIT), Waits] else [Waits, Publishes(AUDIT)];
            var s := ScriptOf(Handler(true, if caught then [Try(ops)] else ops), payload, waits);
            && (Announces(s, Event(AUDIT, payload)) <==> recordFirst || !FirstWaitFails(waits))
            && (s.rejects <==> FirstWaitFails(waits) && !caught)
  {
    hide RunOps;
    var ops := if recordFirst then [Publishes(AUDIT), Waits] else [Waits, Publishes(AUDIT)];
    var p := Progress([[]], waits, false);
    Caught(ops, p, payload);
    RecordedFirst(payload, waits);
    RecordedLast(payload, waits);
    var q := RunOps(ops, p, payload);
    var s := ScriptOf(Handler(true, if caught then [Try(ops)] else ops), payload, waits);
    assert s == Async(q.stretches[0], q.stretches[1..], q.threw && !caught);
    if !recordFirst && !q.threw && |q.stretches| > 1 {
      assert s.later[|s.later| - 1] == q.stretches[|q.stretches| - 1];
    }
  }

  lemma OnlyRecorded(payload: string, waits: seq<Wait>)
    ensures Announces(ScriptOf(Handler(false, [Publishes(AUDIT)]), payload, waits), Event(AUDIT, payload))
  {
    var p := Progress([[]], waits, false);
    assert [Publishes(AUDIT)][1..] == [];
    assert RunOps([Publishes(AUDIT)], p, payload) == RunOp(Publishes(AUDIT), p, payload);
  }

  /** The events whose audit record goes when the notification fails. */
  predicate LosesItsAudit(event: string)
  {
    || event == "ApplicationSubmitted" || event == "ApplicationWithdrawn" || event == "InterviewScheduled"
    || event == "OfferReleased" || event == "JobRejected" || event == "PerkReviewed"
  }

  /** Event by event: these six lose their audit record when the notification fails; the other recorded ones never do. */
  lemma AuditLostEventByEvent(event: string, payload: string, waits: seq<Wait>)
    ensures var recorded := event in AUDIT_ONLY || event in AUDIT_THEN_NOTIFY || event == "JobApproved";
            var s := ScriptOf(NotificationHandler(event), payload, waits);
            && (LosesItsAudit(event) ==> (Announces(s, Event(AUDIT, payload)) <==> !FirstWaitFails(waits)))
            && (recorded && !LosesItsAudit(event) ==> Announces(s, Event(AUDIT, payload)))
  {
    hide ScriptOf, Announces, FirstWaitFails;
    AuditLostExactly(false, false, payload, waits);
    AuditLostExactly(true, false, payload, waits);
    AuditLostExactly(false, true, payload, waits);
    AuditLostExactly(true, true, payload, waits);
    OnlyRecorded(payload, waits);
  }
}
