/**
 * What every run of calls on the application table keeps, stated on the history rows.
 */
module ApplicationTraces {
  import opened Basics
  import opened Applications

  // ------------------------------------------------------------------ legal histories

  /** The only status changes any call can make, recruiter and candidate together. */
  predicate LegalStep(a: Status, b: Status)
  {
    match a
    case Hired => false
    case Rejected => false
    case Withdrawn => b.Applied?
    case OfferReleased => b.Hired? || b.Rejected?
    case InterviewScheduled => b.InterviewScheduled? || b.OfferReleased? || b.Hired? || b.Rejected? || b.Withdrawn?
    case _ => !b.Hired? && Rank(a) <= Rank(b)
  }

  ghost predicate LegalHistory(h: seq<Status>)
  {
    && h != []
    && h[0].Applied?
    && forall i :: 0 <= i < |h| - 1 ==> LegalStep(h[i], h[i + 1])
  }

  /** The entries since the last time the candidate came back after withdrawing. */
  function Cycle(h: seq<Status>): seq<Status>
  {
    if |h| <= 1 then h
    else if h[|h| - 2].Withdrawn? then [h[|h| - 1]]
    else Cycle(h[..|h| - 1]) + [h[|h| - 1]]
  }

  function Count(h: seq<Status>, s: Status): nat
  {
    if h == [] then 0 else Count(h[..|h| - 1], s) + (if h[|h| - 1] == s then 1 else 0)
  }

  lemma CountSnoc(h: seq<Status>, x: Status, s: Status)
    ensures Count(h + [x], s) == Count(h, s) + (if x == s then 1 else 0)
  {
    assert (h + [x])[..|h|] == h;
  }

  lemma CycleSnoc(h: seq<Status>, x: Status)
    requires h != []
    ensures Cycle(h + [x]) == if h[|h| - 1].Withdrawn? then [x] else Cycle(h) + [x]
  {
    assert (h + [x])[..|h|] == h;
  }

  /** Entry `i` is an `s` with no withdrawal from it up to the last entry. */
  ghost predicate EntryOfCycle(h: seq<Status>, i: int, s: Status)
  {
    0 <= i < |h| && h[i] == s && forall j :: i <= j < |h| - 1 ==> !h[j].Withdrawn?
  }

  lemma {:induction false} InCycleExactly(h: seq<Status>, s: Status)
    requires h != []
    ensures s in Cycle(h) <==> exists i :: EntryOfCycle(h, i, s)
  {
    var n := |h| - 1;
    if h[n] == s {
      assert EntryOfCycle(h, n, s);
    }
    if n >= 1 && !h[n - 1].Withdrawn? {
      InCycleExactly(h[..n], s);
      if i :| EntryOfCycle(h[..n], i, s) {
        forall j | i <= j < n
          ensures !h[j].Withdrawn?
        {
          assert j < n - 1 ==> !h[..n][j].Withdrawn?;
        }
        assert EntryOfCycle(h, i, s);
      }
      if i :| EntryOfCycle(h, i, s) && i < n {
        assert EntryOfCycle(h[..n], i, s);
      }
    }
  }

  // ------------------------------------------------------------------ consequences of a legal history

  /** The pipeline never runs backwards inside a cycle. */
  lemma {:induction false} RankNeverFalls(h: seq<Status>, i: nat, j: nat)
    requires LegalHistory(h) && i <= j < |h|
    requires forall k :: i <= k < j ==> !h[k].Withdrawn?
    ensures Rank(h[i]) <= Rank(h[j])
    decreases j - i
  {
    if i < j {
      RankNeverFalls(h, i, j - 1);
      assert LegalStep(h[j - 1], h[j - 1 + 1]);
    }
  }

  /** Hired and Rejected end a history; Withdrawn is only ever followed by Applied. */
  lemma TerminalStatesAreFinal(h: seq<Status>, i: nat)
    requires LegalHistory(h) && i < |h|
    ensures h[i].Hired? || h[i].Rejected? ==> i == |h| - 1
    ensures h[i].Withdrawn? && i < |h| - 1 ==> h[i + 1].Applied?
  {
    assert i < |h| - 1 ==> LegalStep(h[i], h[i + 1]);
  }

  /** The entry right before Hired is an interview or an offer. */
  lemma HiredFollowsInterviewOrOffer(h: seq<Status>, i: nat)
    requires LegalHistory(h) && i < |h| && h[i].Hired?
    ensures i > 0 && (h[i - 1].InterviewScheduled? || h[i - 1].OfferReleased?)
  {
    assert i > 0 ==> LegalStep(h[i - 1], h[i - 1 + 1]);
  }

  /** After an offer there is at most a Hired or a Rejected: never a withdrawal, a second offer or a new cycle. */
  lemma OfferIsNextToLast(h: seq<Status>, i: nat)
    requires LegalHistory(h) && i < |h| && h[i].OfferReleased?
    ensures i >= |h| - 2
    ensures i == |h| - 2 ==> h[i + 1].Hired? || h[i + 1].Rejected?
  {
    if i < |h| - 1 {
      assert LegalStep(h[i], h[i + 1]);
      TerminalStatesAreFinal(h, i + 1);
    }
  }

  // ------------------------------------------------------------------ the invariant

  /** Everything but the interview rows. */
  ghost predicate Sound(a: Application)
  {
    && a.history != [] && LegalHistory(a.history)
    && a.status == a.history[|a.history| - 1]
    && (a.offerDetails.Some? <==> OfferReleased in Cycle(a.history))
    && (a.offerReleasedAt.Some? <==> OfferReleased in Cycle(a.history))
    && (a.offerLetterUrl.Some? ==> OfferReleased in Cycle(a.history))
    && (a.offerLetterPublicId.Some? <==> a.offerLetterUrl.Some?)
    && Count(Cycle(a.history), OfferReleased) <= 1
  }

  /** How often the row's cycle says an interview was scheduled. */
  ghost function Scheduled(a: Application): nat
  {
    Count(Cycle(a.history), InterviewScheduled)
  }

  ghost predicate Good(a: Application)
  {
    Sound(a) && |a.interviews| == Scheduled(a)
  }

  ghost predicate Inv(apps: Table)
  {
    OnePerPair(apps) && forall id :: id in apps ==> Good(apps[id])
  }

  /** A row that can still be withdrawn, or has been, has no offer in its cycle. */
  lemma NoOfferBefore(a: Application)
    requires Sound(a) && (IsWithdrawable(a.status) || a.status.Withdrawn?)
    ensures Count(Cycle(a.history), OfferReleased) == 0
    ensures a.offerDetails.None? && a.offerReleasedAt.None? && a.offerLetterUrl.None? && a.offerLetterPublicId.None?
  {
    InCycleExactly(a.history, OfferReleased);
    if i :| EntryOfCycle(a.history, i, OfferReleased) {
      OfferIsNextToLast(a.history, i);
    }
    CountNone(Cycle(a.history), OfferReleased);
  }

  /** A row back at, or still at, Applied has no interview in its cycle. */
  lemma NoInterviewBefore(a: Application)
    requires Sound(a) && a.status.Applied?
    ensures Scheduled(a) == 0
  {
    InCycleExactly(a.history, InterviewScheduled);
    if i :| EntryOfCycle(a.history, i, InterviewScheduled) {
      RankNeverFalls(a.history, i, |a.history| - 1);
    }
    CountNone(Cycle(a.history), InterviewScheduled);
  }

  lemma {:induction false} CountNone(h: seq<Status>, s: Status)
    ensures Count(h, s) == 0 <==> s !in h
  {
    if h != [] {
      CountNone(h[..|h| - 1], s);
      assert h == h[..|h| - 1] + [h[|h| - 1]];
    }
  }

  lemma LegalSnoc(h: seq<Status>, x: Status)
    requires LegalHistory(h)
    ensures LegalHistory(h + [x]) <==> LegalStep(h[|h| - 1], x)
  {
    var g := h + [x];
    assert g[|h| - 1] == h[|h| - 1] && g[|h|] == x;
    if LegalHistory(g) {
      assert LegalStep(g[|h| - 1], g[|h| - 1 + 1]);
    }
    forall i | 0 <= i < |h| - 1
      ensures LegalStep(g[i], g[i + 1])
    {
      assert g[i] == h[i] && g[i + 1] == h[i + 1];
    }
  }

  /** The status a write appends to the history. */
  function Appended(w: Write): Status
    requires !w.CreateRow?
  {
    match w
    case ResetRow(_, _) => Applied
    case SetStatus(_, status) => status
    case AddInterview(_, _) => InterviewScheduled
    case SetOffer(_, _, _, _, _) => OfferReleased
  }

  /** A write as some call produces it: the generic ones leave the structured statuses alone. */
  ghost predicate FromSomeCall(w: Write)
  {
    && (w.SetStatus? ==> !IsStructured(w.status))
    && (w.SetOffer? ==> (w.letterUrl.Some? <==> w.letterPublicId.Some?))
  }

  /** How one more entry changes the cycle. */
  lemma CycleCounts(h: seq<Status>, x: Status, s: Status)
    requires h != []
    ensures Count(Cycle(h + [x]), s)
         == (if h[|h| - 1].Withdrawn? then 0 else Count(Cycle(h), s)) + (if x == s then 1 else 0)
  {
    assert Count([], s) == 0;
    hide Cycle, Count;
    CycleSnoc(h, x);
    CountSnoc(if h[|h| - 1].Withdrawn? then [] else Cycle(h), x, s);
    assert [] + [x] == [x];
  }

  lemma CycleContains(h: seq<Status>, x: Status, s: Status)
    requires h != []
    ensures s in Cycle(h + [x]) <==> x == s || (!h[|h| - 1].Withdrawn? && s in Cycle(h))
  {
    hide Cycle;
    CycleSnoc(h, x);
  }

  /**
   * The `application.update` of any write, on the row it meets: the row stays sound exactly when its status
   * allows the step, whatever the row was when the call looked.
   */
  lemma LastPartExactly(a: Application, w: Write)
    requires Sound(a) && !w.CreateRow? && FromSomeCall(w)
    ensures Sound(LastPart(a, w)) <==> LegalStep(a.status, Appended(w))
    ensures Scheduled(LastPart(a, w))
         == (if a.status.Withdrawn? then 0 else Scheduled(a)) + (if Appended(w).InterviewScheduled? then 1 else 0)
    ensures LastPart(a, w).interviews == a.interviews
  {
    hide Cycle, Count, LegalHistory;
    var x := Appended(w);
    LegalSnoc(a.history, x);
    CycleCounts(a.history, x, InterviewScheduled);
    CycleCounts(a.history, x, OfferReleased);
    CycleContains(a.history, x, OfferReleased);
    if IsWithdrawable(a.status) || a.status.Withdrawn? {
      NoOfferBefore(a);
    }
  }

  /**
   * A whole write to a good row keeps it good exactly when its present status allows the step, except that a
   * plain Applied on a withdrawn row must not stand in for a reset while old interview rows are there.
   */
  lemma WriteKeepsGoodExactly(a: Application, w: Write)
    requires Good(a) && !w.CreateRow? && FromSomeCall(w)
    ensures Good(Written(a, w))
            <==> && LegalStep(a.status, Appended(w))
                 && (w.SetStatus? && a.status.Withdrawn? ==> a.interviews == [])
  {
    hide Sound;
    var met := if InTwoParts(w) then FirstPart(a, w) else a;
    SoundIgnoresInterviews(a, met);
    LastPartExactly(met, w);
    if w.ResetRow? && LegalStep(a.status, Applied) {
      ReappliedStatus(a);
    }
  }

  lemma SoundIgnoresInterviews(a: Application, b: Application)
    requires b == a.(interviews := b.interviews)
    ensures Sound(a) <==> Sound(b)
    ensures Scheduled(a) == Scheduled(b)
  {
  }

  /** Only a withdrawn row, or one still at Applied, takes an Applied. */
  lemma ReappliedStatus(a: Application)
    requires Sound(a) && LegalStep(a.status, Applied)
    ensures a.status.Withdrawn? || (a.status.Applied? && Scheduled(a) == 0)
  {
    if a.status.Applied? {
      NoInterviewBefore(a);
    }
  }

  // ------------------------------------------------------------------ one call

  /** What `Check` lets through is a write the row's status allows. */
  lemma CheckedWriteIsLegal(dir: Directory, apps: Table, call: Call)
    requires Check(dir, apps, call).Ok?
    ensures var w := Check(dir, apps, call).value;
            !w.CreateRow? ==>
              && w.id in apps
              && LegalStep(apps[w.id].status, Appended(w))
              && (w.ResetRow? ==> apps[w.id].status.Withdrawn?)
              && (w.SetStatus? ==> !IsStructured(w.status) && !apps[w.id].status.Withdrawn?)
              && (w.SetOffer? ==>
                    || (w.letterUrl.Some? && w.letterPublicId.Some?)
                    || (w.letterUrl == apps[w.id].offerLetterUrl && w.letterPublicId == apps[w.id].offerLetterPublicId))
  {
    hide GetAllowedTransitions;
    var w := Check(dir, apps, call).value;
    if !w.CreateRow? {
      AllowedExactly(apps[w.id].status, Appended(w));
    }
  }

  lemma OneCallKeepsInv(dir: Directory, apps: Table, call: Call)
    requires Inv(apps) && FreshId(apps, call)
    ensures Inv(After(dir, apps, call))
  {
    hide Inv, Check, FreshId;
    if Check(dir, apps, call).Ok? {
      var w := Check(dir, apps, call).value;
      if w.CreateRow? {
        CreateIsForNewPair(dir, apps, call);
        CreateKeepsInv(apps, w);
      } else {
        CheckedWriteIsLegal(dir, apps, call);
        LegalWriteKeepsInv(apps, w);
      }
    }
  }

  lemma CreateKeepsInv(apps: Table, w: Write)
    requires Inv(apps) && w.CreateRow? && w.id !in apps
    requires forall id :: id in apps ==> !IsFor(apps[id], w.candidate, w.job)
    ensures Inv(Commit(apps, w))
  {
    hide Good;
    NewRowIsGood(w.candidate, w.job, w.now);
  }

  lemma LegalWriteKeepsInv(apps: Table, w: Write)
    requires Inv(apps) && !w.CreateRow? && w.id in apps
    requires LegalStep(apps[w.id].status, Appended(w))
    requires w.SetStatus? ==> !IsStructured(w.status) && !apps[w.id].status.Withdrawn?
    requires w.SetOffer? ==>
               || (w.letterUrl.Some? && w.letterPublicId.Some?)
               || (w.letterUrl == apps[w.id].offerLetterUrl && w.letterPublicId == apps[w.id].offerLetterPublicId)
    ensures Inv(Commit(apps, w))
  {
    hide Good, LegalStep;
    GoodIsSound(apps[w.id]);
    LetterFieldsTogether(apps[w.id]);
    WriteKeepsGoodExactly(apps[w.id], w);
  }

  lemma GoodIsSound(a: Application)
    requires Good(a)
    ensures Sound(a)
  {
  }

  lemma LetterFieldsTogether(a: Application)
    requires Sound(a)
    ensures a.offerLetterUrl.Some? <==> a.offerLetterPublicId.Some?
  {
  }

  lemma NewRowIsGood(candidate: CandidateId, job: JobId, now: int)
    ensures Good(NewRow(candidate, job, now))
  {
    assert Cycle([Applied]) == [Applied];
    CountSnoc([], Applied, InterviewScheduled);
    CountSnoc([], Applied, OfferReleased);
    assert [] + [Applied] == [Applied];
  }

  lemma CreateIsForNewPair(dir: Directory, apps: Table, call: Call)
    requires Check(dir, apps, call).Ok? && Check(dir, apps, call).value.CreateRow? && FreshId(apps, call)
    ensures var w := Check(dir, apps, call).value;
            w.id !in apps && forall id :: id in apps ==> !IsFor(apps[id], w.candidate, w.job)
  {
  }

  // ------------------------------------------------------------------ whole runs

  /** A run: each call sees whatever the other tables hold at the time. */
  datatype Event = Event(dir: Directory, call: Call)

  ghost function Run(apps: Table, events: seq<Event>): Table
  {
    if events == [] then apps
    else
      var last := events[|events| - 1];
      After(last.dir, Run(apps, events[..|events| - 1]), last.call)
  }

  ghost predicate FreshIds(apps: Table, events: seq<Event>)
  {
    forall n :: 0 <= n < |events| ==> FreshId(Run(apps, events[..n]), events[n].call)
  }

  lemma {:induction false} EveryRunKeepsInv(apps: Table, events: seq<Event>)
    requires Inv(apps) && FreshIds(apps, events)
    ensures Inv(Run(apps, events))
  {
    if events != [] {
      var n := |events| - 1;
      forall k | 0 <= k < n
        ensures events[..n][..k] == events[..k]
      {
      }
      EveryRunKeepsInv(apps, events[..n]);
      assert FreshId(Run(apps, events[..n]), events[n].call);
      OneCallKeepsInv(events[n].dir, Run(apps, events[..n]), events[n].call);
    }
  }

  /**
   * In every reachable table: one row per candidate and job, the status is the last history entry, the
   * pipeline never runs backwards within a cycle, Hired and Rejected are final, Withdrawn only leads to
   * Applied, Hired comes right after an interview or an offer, offer data is there exactly when the cycle
   * has its one OfferReleased, and there is one interview row per InterviewScheduled of the cycle.
   */
  lemma ReachableTables(events: seq<Event>, id: ApplicationId)
    requires FreshIds(map[], events) && id in Run(map[], events)
    ensures var apps := Run(map[], events);
            var h := apps[id].history;
            && OnePerPair(apps)
            && h != [] && h[0].Applied? && apps[id].status == h[|h| - 1]
            && (forall i, j :: 0 <= i <= j < |h| && (forall k :: i <= k < j ==> !h[k].Withdrawn?) ==> Rank(h[i]) <= Rank(h[j]))
            && (forall i :: 0 <= i < |h| - 1 ==> !h[i].Hired? && !h[i].Rejected? && (h[i].Withdrawn? ==> h[i + 1].Applied?))
            && (forall i :: 0 <= i < |h| && h[i].Hired? ==> i > 0 && (h[i - 1].InterviewScheduled? || h[i - 1].OfferReleased?))
            && (apps[id].offerDetails.Some? <==> OfferReleased in Cycle(h))
            && Count(Cycle(h), OfferReleased) <= 1
            && |apps[id].interviews| == Count(Cycle(h), InterviewScheduled)
  {
    EveryRunKeepsInv(map[], events);
    var h := Run(map[], events)[id].history;
    assert Good(Run(map[], events)[id]);
    forall i: nat, j: nat | i <= j < |h| && forall k :: i <= k < j ==> !h[k].Withdrawn?
      ensures Rank(h[i]) <= Rank(h[j])
    {
      RankNeverFalls(h, i, j);
    }
    forall i | 0 <= i < |h| - 1
      ensures !h[i].Hired? && !h[i].Rejected? && (h[i].Withdrawn? ==> h[i + 1].Applied?)
    {
      TerminalStatesAreFinal(h, i);
    }
    forall i | 0 <= i < |h| && h[i].Hired?
      ensures i > 0 && (h[i - 1].InterviewScheduled? || h[i - 1].OfferReleased?)
    {
      HiredFollowsInterviewOrOffer(h, i);
    }
  }

  // ------------------------------------------------------------------ no offer is lost

  /** A withdrawn application carries no offer, so resetting it for a new attempt clears nothing. */
  lemma ReapplyClearsNoOffer(apps: Table, id: ApplicationId, now: int)
    requires Inv(apps) && id in apps && apps[id].status.Withdrawn?
    ensures var row, reset := apps[id], Written(apps[id], ResetRow(id, now));
            && reset.offerDetails == row.offerDetails == None
            && reset.offerReleasedAt == row.offerReleasedAt == None
            && reset.offerLetterUrl == row.offerLetterUrl == None
            && reset.offerLetterPublicId == row.offerLetterPublicId == None
  {
    NoOfferBefore(apps[id]);
  }

  /** Once released, an offer stays as it is through every later call by anyone. */
  lemma OfferIsKept(dir: Directory, apps: Table, call: Call, id: ApplicationId)
    requires Inv(apps) && FreshId(apps, call) && id in apps && apps[id].offerDetails.Some?
    ensures id in After(dir, apps, call)
    ensures var row := After(dir, apps, call)[id];
            && row.offerDetails == apps[id].offerDetails && row.offerReleasedAt == apps[id].offerReleasedAt
            && row.offerLetterUrl == apps[id].offerLetterUrl && row.offerLetterPublicId == apps[id].offerLetterPublicId
  {
    hide Check, Good;
    if Check(dir, apps, call).Ok? {
      var w := Check(dir, apps, call).value;
      CheckedWriteIsLegal(dir, apps, call);
      OfferedStatus(apps[id]);
      CreateIsFresh(dir, apps, call);
    }
  }

  lemma CreateIsFresh(dir: Directory, apps: Table, call: Call)
    requires FreshId(apps, call)
    ensures var c := Check(dir, apps, call); c.Ok? && c.value.CreateRow? ==> c.value.id !in apps
  {
  }

  lemma OfferedStatus(a: Application)
    requires Good(a) && a.offerDetails.Some?
    ensures a.status.OfferReleased? || a.status.Hired? || a.status.Rejected?
  {
    if IsWithdrawable(a.status) || a.status.Withdrawn? {
      NoOfferBefore(a);
    }
  }

  /** History is only ever appended to: at most one row changes, by one entry. */
  lemma HistoryOnlyGrows(dir: Directory, apps: Table, call: Call, id: ApplicationId)
    requires FreshId(apps, call) && id in apps
    ensures id in After(dir, apps, call)
    ensures var before, after := apps[id].history, After(dir, apps, call)[id].history;
            before <= after && |after| <= |before| + 1
  {
    hide Check;
    if Check(dir, apps, call).Ok? {
      CreateIsFresh(dir, apps, call);
    }
  }

  // ------------------------------------------------------------------ who changes what

  /** The caller is the application's own candidate, or a recruiter of the company that owns its job. */
  predicate IsEntitled(dir: Directory, call: Call, id: ApplicationId, row: Application)
  {
    match call
    case Apply(user, job, _, _) => user in dir.candidates && dir.candidates[user].id == row.candidate && job == row.job
    case Withdraw(app, user) => app == id && user in dir.candidates && dir.candidates[user].id == row.candidate
    case _ =>
      && call.app == id && call.user in dir.recruiters && row.job in dir.jobs
      && dir.jobs[row.job] == dir.recruiters[call.user]
  }

  lemma OnlyTheEntitledChangeRows(dir: Directory, apps: Table, call: Call, id: ApplicationId)
    requires FreshId(apps, call) && id in apps
    ensures id in After(dir, apps, call) && IsFor(After(dir, apps, call)[id], apps[id].candidate, apps[id].job)
    ensures After(dir, apps, call)[id] != apps[id] ==> IsEntitled(dir, call, id, apps[id])
  {
    hide GetAllowedTransitions;
    HistoryOnlyGrows(dir, apps, call, id);
  }

  /** Over every run: each change of a row is made by its candidate or by a recruiter of the company that owns the job. */
  lemma {:induction false} EveryChangeIsEntitled(apps: Table, events: seq<Event>, id: ApplicationId, n: nat)
    requires FreshIds(apps, events) && id in apps && n < |events|
    ensures id in Run(apps, events[..n]) && id in Run(apps, events[..n + 1])
    ensures Run(apps, events[..n + 1])[id] != Run(apps, events[..n])[id]
        ==> IsEntitled(events[n].dir, events[n].call, id, apps[id])
    ensures IsFor(Run(apps, events[..n + 1])[id], apps[id].candidate, apps[id].job)
  {
    hide IsEntitled, Check;
    assert events[..n + 1][..n] == events[..n];
    if n > 0 {
      EveryChangeIsEntitled(apps, events, id, n - 1);
    }
    var before := Run(apps, events[..n]);
    OnlyTheEntitledChangeRows(events[n].dir, before, events[n].call, id);
    SamePairSameRights(events[n].dir, events[n].call, id, before[id], apps[id]);
  }

  lemma SamePairSameRights(dir: Directory, call: Call, id: ApplicationId, a: Application, b: Application)
    requires a.candidate == b.candidate && a.job == b.job
    ensures IsEntitled(dir, call, id, a) <==> IsEntitled(dir, call, id, b)
  {
  }

  // ------------------------------------------------------------------ which steps are possible

  /**
   * A status change is legal exactly when somebody can make it: for any application in any table there is
   * a caller and a call that moves it from its status to the other one.
   */
  lemma EveryLegalStepIsPossible(apps: Table, id: ApplicationId, next: Status)
    requires OnePerPair(apps) && id in apps
    ensures LegalStep(apps[id].status, next)
            <==> exists dir: Directory, call: Call ::
                   && FreshId(apps, call)
                   && Check(dir, apps, call).Ok?
                   && Check(dir, apps, call).value.id == id
                   && !Check(dir, apps, call).value.CreateRow?
                   && After(dir, apps, call)[id].status == next
  {
    hide GetAllowedTransitions;
    var a := apps[id];
    var dir := Directory(map[0 := Candidate(a.candidate, false)], map[0 := 0], map[a.job := 0]);
    AllowedExactly(a.status, next);
    if LegalStep(a.status, next) {
      var call :=
        if a.status.Withdrawn? then Apply(0, a.job, FreshFor(apps), 0)
        else if next.Withdrawn? then Withdraw(id, 0)
        else if next.InterviewScheduled? then Schedule(id, 0, Interview("", 0, 60))
        else if next.OfferReleased? then Release(id, 0, "", None, 0)
        else Progress(id, 0, next);
      FreshForIsNew(apps);
      assert FreshId(apps, call) && Check(dir, apps, call).Ok? && Check(dir, apps, call).value.id == id;
      assert After(dir, apps, call)[id].status == next;
    }
    forall dir: Directory, call: Call | Check(dir, apps, call).Ok? && Check(dir, apps, call).value.id == id
        && !Check(dir, apps, call).value.CreateRow? && After(dir, apps, call)[id].status == next
      ensures LegalStep(a.status, next)
    {
      CheckedWriteIsLegal(dir, apps, call);
    }
  }

  ghost function FreshFor(apps: Table): ApplicationId
  {
    MaxOf(apps.Keys) + 1
  }

  ghost function MaxOf(ids: set<nat>): (m: nat)
    ensures forall i :: i in ids ==> i <= m
    decreases |ids|
  {
    if ids == {} then 0
    else
      var i :| i in ids;
      var m := MaxOf(ids - {i});
      assert forall k :: k in ids ==> k == i || k in ids - {i};
      if i > m then i else m
  }

  lemma FreshForIsNew(apps: Table)
    ensures FreshFor(apps) !in apps
  {
  }
}
