/**
 * Application calls that interleave. A call looks at the tables, decides on a write, and then makes its one or
 * two database calls; any other call can come in between, a database call can fail and end its call, and a row
 * can go away with its job or its candidate. Nothing in the database rechecks what a call decided.
 */
module ApplicationSteps {
  import opened Basics
  import opened Applications
  import opened ApplicationTraces

  type OpId = nat

  /** A running call: what it will write, and whether the first of two database calls is done. */
  datatype Stage = Decided(write: Write) | HalfDone(write: Write)

  datatype State = State(apps: Table, running: map<OpId, Stage>)

  datatype Step =
    | Decide(op: OpId, dir: Directory, call: Call)
    | DoWrite(op: OpId)
    | Abandon(op: OpId)
    | RowGone(id: ApplicationId)

  predicate OnRow(running: map<OpId, Stage>, op: OpId, id: ApplicationId)
  {
    op in running && running[op].write.id == id
  }

  /** A generated id belongs to no row, and no other call has heard of it. */
  ghost predicate IsNew(s: State, op: OpId, id: ApplicationId)
  {
    id !in s.apps && forall other :: OnRow(s.running, other, id) ==> other == op
  }

  ghost predicate Enabled(s: State, step: Step)
  {
    match step
    case Decide(op, _, _) => op !in s.running
    case DoWrite(op) =>
      && op in s.running
      && (s.running[op].HalfDone? ==> InTwoParts(s.running[op].write))
      && (s.running[op].write.CreateRow? ==> IsNew(s, op, s.running[op].write.id))
    case Abandon(op) => op in s.running
    case RowGone(id) => id in s.apps
  }

  function Ended(s: State, op: OpId): State
  {
    s.(running := s.running - {op})
  }

  /** The next database call of a running call; on a row that is gone it fails, and the call ends. */
  function Done(s: State, op: OpId): State
    requires op in s.running && (s.running[op].HalfDone? ==> InTwoParts(s.running[op].write))
  {
    var w := s.running[op].write;
    if w.CreateRow? then Ended(s, op).(apps := s.apps[w.id := NewRow(w.candidate, w.job, w.now)])
    else if w.id !in s.apps then Ended(s, op)
    else if s.running[op].Decided? && InTwoParts(w) then
      State(s.apps[w.id := FirstPart(s.apps[w.id], w)], s.running[op := HalfDone(w)])
    else Ended(s, op).(apps := s.apps[w.id := LastPart(s.apps[w.id], w)])
  }

  ghost function Next(s: State, step: Step): State
    requires Enabled(s, step)
  {
    match step
    case Decide(op, dir, call) =>
      (match Check(dir, s.apps, call)
       case Err(_) => s
       case Ok(w) => s.(running := s.running[op := Decided(w)]))
    case DoWrite(op) => Done(s, op)
    case Abandon(op) => Ended(s, op)
    case RowGone(id) => s.(apps := s.apps - {id})
  }

  // ------------------------------------------------------------------ the invariant

  /** The calls that have inserted their interview into a row and not yet marked it. */
  function Inserting(running: map<OpId, Stage>, id: ApplicationId): set<OpId>
  {
    set op | op in running && OnRow(running, op, id) && running[op].HalfDone? && running[op].write.AddInterview?
  }

  /** The reapplying calls that have deleted the interviews of a row and not yet reset it. */
  function Resetting(running: map<OpId, Stage>, id: ApplicationId): set<OpId>
  {
    set op | op in running && OnRow(running, op, id) && running[op].HalfDone? && running[op].write.ResetRow?
  }

  /**
   * The interview rows are those of the cycle plus one for every half-done scheduling call; while a half-done
   * reapply is about to start a new cycle, only the latter.
   */
  ghost predicate Fits(a: Application, inserting: nat, resetting: bool)
  {
    Sound(a) && |a.interviews| == inserting + if a.status.Withdrawn? && resetting then 0 else Scheduled(a)
  }

  ghost predicate RowOk(s: State, id: ApplicationId)
  {
    id in s.apps ==> Fits(s.apps[id], |Inserting(s.running, id)|, Resetting(s.running, id) != {})
  }

  ghost predicate DecidedOk(s: State, op: OpId)
  {
    op in s.running ==>
      && FromSomeCall(s.running[op].write)
      && (s.running[op].HalfDone? ==> InTwoParts(s.running[op].write))
  }

  ghost predicate StepInv(s: State)
  {
    && OnePerPair(s.apps)
    && (forall id :: RowOk(s, id))
    && (forall op :: DecidedOk(s, op))
  }

  /** With no call running, the step invariant is the invariant of whole calls. */
  lemma NothingRunning(s: State)
    requires s.running == map[]
    ensures StepInv(s) <==> Inv(s.apps)
  {
    hide Sound;
    forall id: ApplicationId
      ensures Inserting(s.running, id) == {} && Resetting(s.running, id) == {}
    {
    }
    if StepInv(s) {
      forall id | id in s.apps
        ensures Good(s.apps[id])
      {
        assert RowOk(s, id);
      }
    }
  }

  // ------------------------------------------------------------------ which steps break it

  /** An update of a status: the row must still allow it, and it must not strand interview rows. */
  ghost predicate LastPartBreaks(s: State, op: OpId)
    requires op in s.running && !s.running[op].write.CreateRow? && s.running[op].write.id in s.apps
  {
    var w := s.running[op].write;
    var a := s.apps[w.id];
    || !LegalStep(a.status, Appended(w))
    || (w.SetStatus? && Scheduled(a) > 0
        && (|| (a.status.Withdrawn? && Resetting(s.running, w.id) == {})
            || (w.status.Withdrawn? && Resetting(s.running, w.id) != {})))
  }

  /** Deleting the interviews of a row takes away one that was just inserted, or those of a running cycle. */
  ghost predicate DeletingBreaks(s: State, id: ApplicationId)
    requires id in s.apps
  {
    Inserting(s.running, id) != {} || (!s.apps[id].status.Withdrawn? && Scheduled(s.apps[id]) > 0)
  }

  /** Which steps go wrong, from the row they meet and the half-done calls on it. */
  ghost predicate Breaks(s: State, step: Step)
    requires Enabled(s, step)
  {
    match step
    case Decide(_, _, _) => false
    case RowGone(_) => false
    case DoWrite(op) =>
      var w := s.running[op].write;
      if w.CreateRow? then exists id :: id in s.apps && IsFor(s.apps[id], w.candidate, w.job)
      else if w.id !in s.apps then false
      else if s.running[op].Decided? && InTwoParts(w) then w.ResetRow? && DeletingBreaks(s, w.id)
      else LastPartBreaks(s, op)
    case Abandon(op) =>
      var w := s.running[op].write;
      && s.running[op].HalfDone? && w.id in s.apps
      && (w.AddInterview?
          || (w.ResetRow? && s.apps[w.id].status.Withdrawn? && Scheduled(s.apps[w.id]) > 0
              && Resetting(s.running, w.id) == {op}))
  }

  /** A row that a step leaves alone, with the same half-done calls. */
  lemma RowStaysOk(s: State, s': State, id: ApplicationId)
    requires id in s'.apps ==> id in s.apps && s'.apps[id] == s.apps[id]
    requires Inserting(s'.running, id) == Inserting(s.running, id) && Resetting(s'.running, id) == Resetting(s.running, id)
    ensures RowOk(s, id) ==> RowOk(s', id)
  {
  }

  /** A call ends: a half-done one leaves the set it was in. */
  lemma EndingCounts(running: map<OpId, Stage>, op: OpId)
    requires op in running
    ensures var id := running[op].write.id;
            var before, after := Inserting(running, id), Inserting(running - {op}, id);
            if running[op].HalfDone? && running[op].write.AddInterview? then |after| == |before| - 1 else after == before
    ensures var id := running[op].write.id;
            var before, after := Resetting(running, id), Resetting(running - {op}, id);
            if running[op].HalfDone? && running[op].write.ResetRow? then op in before && after == before - {op}
            else after == before
  {
    var id := running[op].write.id;
    assert Inserting(running - {op}, id) == Inserting(running, id) - {op};
    assert Resetting(running - {op}, id) == Resetting(running, id) - {op};
    if running[op].HalfDone? && running[op].write.AddInterview? {
      assert op in Inserting(running, id);
    }
  }

  /** The first database call of two: the call joins the set of half-done ones. */
  lemma HalvingCounts(running: map<OpId, Stage>, op: OpId)
    requires op in running && running[op].Decided? && InTwoParts(running[op].write)
    ensures var w, after := running[op].write, running[op := HalfDone(running[op].write)];
            if w.AddInterview? then
              |Inserting(after, w.id)| == |Inserting(running, w.id)| + 1 && Resetting(after, w.id) == Resetting(running, w.id)
            else
              Inserting(after, w.id) == Inserting(running, w.id) && op in Resetting(after, w.id)
  {
    var w, after := running[op].write, running[op := HalfDone(running[op].write)];
    assert op !in Inserting(running, w.id);
    if w.AddInterview? {
      assert Inserting(after, w.id) == Inserting(running, w.id) + {op};
      assert Resetting(after, w.id) == Resetting(running, w.id);
    } else {
      assert Inserting(after, w.id) == Inserting(running, w.id);
    }
  }

  lemma DecideKeepsInv(s: State, step: Step)
    requires StepInv(s) && Enabled(s, step) && step.Decide?
    ensures StepInv(Next(s, step))
  {
    hide Sound, FromSomeCall, Check, OnePerPair;
    var s' := Next(s, step);
    if Check(step.dir, s.apps, step.call).Ok? {
      forall id | id in s.apps
        ensures Sound(s.apps[id])
      {
        assert RowOk(s, id);
      }
      CheckedWriteIsFromSomeCall(step.dir, s.apps, step.call);
      forall id
        ensures RowOk(s', id)
      {
        assert Inserting(s'.running, id) == Inserting(s.running, id) && Resetting(s'.running, id) == Resetting(s.running, id);
        RowStaysOk(s, s', id);
      }
      forall op
        ensures DecidedOk(s', op)
      {
        assert DecidedOk(s, op);
      }
    }
  }

  lemma RowGoneKeepsInv(s: State, id: ApplicationId)
    requires StepInv(s) && id in s.apps
    ensures StepInv(s.(apps := s.apps - {id}))
  {
    hide Sound, FromSomeCall;
    var s' := s.(apps := s.apps - {id});
    forall other
      ensures RowOk(s', other)
    {
      assert RowOk(s, other);
      assert Inserting(s'.running, other) == Inserting(s.running, other);
      assert Resetting(s'.running, other) == Resetting(s.running, other);
    }
    forall op
      ensures DecidedOk(s', op)
    {
      assert DecidedOk(s, op);
    }
  }

  /** What a step on one row leaves as it was. */
  lemma OthersStay(s: State, op: OpId, s': State, id: ApplicationId)
    requires StepInv(s) && op in s.running && s.running[op].write.id == id
    requires forall other :: other != id ==> (other in s'.apps <==> other in s.apps)
    requires forall other :: other != id && other in s.apps ==> s'.apps[other] == s.apps[other]
    requires s'.running == s.running - {op} || s'.running == s.running[op := HalfDone(s.running[op].write)]
    requires s'.running == s.running - {op} || InTwoParts(s.running[op].write)
    ensures RowOk(s, id) && DecidedOk(s, op) && OnePerPair(s.apps)
    ensures StepInv(s') <==> OnePerPair(s'.apps) && RowOk(s', id)
  {
    hide Sound, FromSomeCall, OnePerPair;
    forall other | other != id
      ensures RowOk(s', other)
    {
      assert RowOk(s, other);
      assert Inserting(s'.running, other) == Inserting(s.running, other);
      assert Resetting(s'.running, other) == Resetting(s.running, other);
      RowStaysOk(s, s', other);
    }
    forall other
      ensures DecidedOk(s', other)
    {
      assert DecidedOk(s, other) && DecidedOk(s, op);
    }
  }

  lemma SamePairs(apps: Table, apps': Table)
    requires OnePerPair(apps) && apps'.Keys == apps.Keys
    requires forall id :: id in apps ==> apps'[id].candidate == apps[id].candidate && apps'[id].job == apps[id].job
    ensures OnePerPair(apps')
  {
  }

  lemma EndKeepsInvExactly(s: State, op: OpId)
    requires StepInv(s) && op in s.running
    ensures StepInv(Ended(s, op)) <==> s.running[op].write.id !in s.apps || !Breaks(s, Abandon(op))
  {
    hide StepInv, Sound, FromSomeCall, OnePerPair, Inserting, Resetting;
    OthersStay(s, op, Ended(s, op), s.running[op].write.id);
    EndingCounts(s.running, op);
  }

  lemma FirstPartFitsExactly(a: Application, w: Write, inserting: nat, resetting: bool)
    requires Fits(a, inserting, resetting) && InTwoParts(w)
    ensures w.AddInterview? ==> Fits(FirstPart(a, w), inserting + 1, resetting)
    ensures w.ResetRow? ==>
              (Fits(FirstPart(a, w), inserting, true) <==> !(inserting != 0 || (!a.status.Withdrawn? && Scheduled(a) > 0)))
  {
    hide Sound, Scheduled;
    SoundIgnoresInterviews(a, FirstPart(a, w));
  }

  lemma LastPartFitsExactly(a: Application, w: Write, inserting: nat, resetting: bool, stillResetting: bool)
    requires Fits(a, inserting, resetting) && FromSomeCall(w) && !w.CreateRow?
    requires w.AddInterview? ==> inserting > 0
    requires w.ResetRow? ==> resetting
    requires stillResetting == resetting || (w.ResetRow? && !stillResetting)
    ensures Fits(LastPart(a, w), if w.AddInterview? then inserting - 1 else inserting, stillResetting)
            <==> && LegalStep(a.status, Appended(w))
                 && !(w.SetStatus? && Scheduled(a) > 0
                      && ((a.status.Withdrawn? && !resetting) || (w.status.Withdrawn? && resetting)))
  {
    hide Sound, Scheduled;
    LastPartExactly(a, w);
  }

  lemma FirstPartKeepsInvExactly(s: State, op: OpId)
    requires StepInv(s) && Enabled(s, DoWrite(op))
    requires s.running[op].Decided? && InTwoParts(s.running[op].write) && s.running[op].write.id in s.apps
    ensures StepInv(Next(s, DoWrite(op))) <==> !Breaks(s, DoWrite(op))
  {
    hide StepInv, Fits, Sound, Scheduled, FromSomeCall, OnePerPair, FirstPart, Inserting, Resetting;
    var w := s.running[op].write;
    var s' := Next(s, DoWrite(op));
    FirstPartSamePair(s.apps[w.id], w);
    OthersStay(s, op, s', w.id);
    SamePairs(s.apps, s'.apps);
    FirstPartFitsExactly(s.apps[w.id], w, |Inserting(s.running, w.id)|, Resetting(s.running, w.id) != {});
    HalvingCounts(s.running, op);
  }

  lemma FirstPartSamePair(a: Application, w: Write)
    requires InTwoParts(w)
    ensures FirstPart(a, w).candidate == a.candidate && FirstPart(a, w).job == a.job
  {
  }

  lemma LastPartSamePair(a: Application, w: Write)
    requires !w.CreateRow?
    ensures LastPart(a, w).candidate == a.candidate && LastPart(a, w).job == a.job
  {
  }

  lemma LastPartKeepsInvExactly(s: State, op: OpId)
    requires StepInv(s) && Enabled(s, DoWrite(op)) && !s.running[op].write.CreateRow?
    requires s.running[op].write.id in s.apps && (s.running[op].Decided? ==> !InTwoParts(s.running[op].write))
    ensures StepInv(Next(s, DoWrite(op))) <==> !Breaks(s, DoWrite(op))
  {
    hide StepInv, Fits, Sound, Scheduled, FromSomeCall, OnePerPair, LastPart, LegalStep, Inserting, Resetting;
    var w := s.running[op].write;
    var s' := Next(s, DoWrite(op));
    LastPartSamePair(s.apps[w.id], w);
    OthersStay(s, op, s', w.id);
    SamePairs(s.apps, s'.apps);
    EndingCounts(s.running, op);
    LastPartFitsExactly(s.apps[w.id], w, |Inserting(s.running, w.id)|, Resetting(s.running, w.id) != {},
                        Resetting(s'.running, w.id) != {});
  }

  lemma CreateKeepsInvExactly(s: State, op: OpId)
    requires StepInv(s) && Enabled(s, DoWrite(op)) && s.running[op].write.CreateRow?
    ensures StepInv(Next(s, DoWrite(op))) <==> !Breaks(s, DoWrite(op))
  {
    hide StepInv, Sound, FromSomeCall, OnePerPair;
    var w := s.running[op].write;
    var s' := Next(s, DoWrite(op));
    OthersStay(s, op, s', w.id);
    LateCreateExactly(s.apps, w);
    NewRowIsGood(w.candidate, w.job, w.now);
    forall other
      ensures !OnRow(s'.running, other, w.id)
    {
      assert OnRow(s'.running, other, w.id) ==> OnRow(s.running, other, w.id);
    }
    assert Inserting(s'.running, w.id) == {} && Resetting(s'.running, w.id) == {};
  }

  /**
   * One step keeps the tables consistent exactly when it does not go wrong: whichever calls are running,
   * whatever they saw when they decided, and whichever of their database calls are done.
   */
  lemma StepKeepsInvExactly(s: State, step: Step)
    requires StepInv(s) && Enabled(s, step)
    ensures StepInv(Next(s, step)) <==> !Breaks(s, step)
  {
    hide RowOk, DecidedOk, OnePerPair, LastPartBreaks, DeletingBreaks;
    match step
    case Decide(_, _, _) => DecideKeepsInv(s, step);
    case RowGone(id) => RowGoneKeepsInv(s, id);
    case Abandon(op) => EndKeepsInvExactly(s, op);
    case DoWrite(op) =>
      var w := s.running[op].write;
      if w.CreateRow? {
        CreateKeepsInvExactly(s, op);
      } else if w.id !in s.apps {
        EndKeepsInvExactly(s, op);
      } else if s.running[op].Decided? && InTwoParts(w) {
        FirstPartKeepsInvExactly(s, op);
      } else {
        LastPartKeepsInvExactly(s, op);
      }
  }

  /** A call that nothing interrupts does what `After` says. */
  lemma UninterruptedCall(s: State, op: OpId, dir: Directory, call: Call)
    requires s.running == map[] && Check(dir, s.apps, call).Ok? && FreshId(s.apps, call)
    ensures var w := Check(dir, s.apps, call).value;
            var looked := Next(s, Decide(op, dir, call));
            && Enabled(looked, DoWrite(op))
            && State(After(dir, s.apps, call), map[])
               == if InTwoParts(w) then Done(Done(looked, op), op) else Done(looked, op)
  {
    hide LastPart, FirstPart;
    var w := Check(dir, s.apps, call).value;
    CreateIsFresh(dir, s.apps, call);
    assert Next(s, Decide(op, dir, call)) == State(s.apps, map[op := Decided(w)]);
    assert map[op := Decided(w)] - {op} == map[] && map[op := Decided(w)][op := HalfDone(w)] - {op} == map[];
  }

  // ------------------------------------------------------------------ whole runs

  ghost predicate Path(states: seq<State>, steps: seq<Step>)
  {
    && |states| == |steps| + 1
    && forall n :: 0 <= n < |steps| ==> Enabled(states[n], steps[n]) && states[n + 1] == Next(states[n], steps[n])
  }

  lemma {:induction false} PathKeepsInv(states: seq<State>, steps: seq<Step>, n: nat)
    requires Path(states, steps) && n < |states| && StepInv(states[0])
    requires forall m :: 0 <= m < n ==> !Breaks(states[m], steps[m])
    ensures StepInv(states[n])
  {
    hide StepInv, Breaks;
    if n > 0 {
      PathKeepsInv(states, steps, n - 1);
      StepKeepsInvExactly(states[n - 1], steps[n - 1]);
      assert states[n - 1 + 1] == Next(states[n - 1], steps[n - 1]);
    }
  }

  /**
   * Over every interleaving from an empty table in which no step goes wrong, the application table is
   * consistent whenever no call is running.
   */
  lemma InterleavedRunsKeepInv(states: seq<State>, steps: seq<Step>, n: nat)
    requires Path(states, steps) && n < |states| && states[0] == State(map[], map[])
    requires forall m :: 0 <= m < |steps| ==> !Breaks(states[m], steps[m])
    requires states[n].running == map[]
    ensures Inv(states[n].apps)
  {
    hide StepInv, Breaks;
    NothingRunning(states[0]);
    PathKeepsInv(states, steps, n);
    NothingRunning(states[n]);
  }

  // ------------------------------------------------------------------ locks would be enough

  /** A running call that holds its row, or the pair it is about to create a row for. */
  ghost predicate Holds(s: State, op: OpId)
  {
    op in s.running ==>
      var w := s.running[op].write;
      && (forall other :: OnRow(s.running, other, w.id) ==> other == op)
      && (w.CreateRow? ==>
            && s.running[op].Decided?
            && (forall id :: id in s.apps ==> !IsFor(s.apps[id], w.candidate, w.job))
            && (forall other :: SamePair(s, op, other) ==> other == op))
      && (!w.CreateRow? && w.id in s.apps ==>
            && LegalStep(s.apps[w.id].status, Appended(w))
            && (w.SetStatus? ==> !s.apps[w.id].status.Withdrawn?)
            && (w.ResetRow? ==> s.apps[w.id].status.Withdrawn?))
  }

  /** Both are about to create a row for the same candidate and job. */
  predicate SamePair(s: State, op: OpId, other: OpId)
  {
    && op in s.running && other in s.running && s.running[op].write.CreateRow? && s.running[other].write.CreateRow?
    && s.running[op].write.candidate == s.running[other].write.candidate
    && s.running[op].write.job == s.running[other].write.job
  }

  /** The step respects the locks: a call only starts when its row or pair is free, and finishes what it began. */
  ghost predicate Respects(s: State, step: Step)
    requires Enabled(s, step)
  {
    match step
    case Decide(op, dir, call) =>
      var c := Check(dir, s.apps, call);
      c.Ok? ==>
        && (forall other :: !OnRow(s.running, other, c.value.id))
        && (c.value.CreateRow? ==>
              forall other :: other in s.running && s.running[other].write.CreateRow? ==>
                   s.running[other].write.candidate != c.value.candidate || s.running[other].write.job != c.value.job)
    case Abandon(op) => s.running[op].HalfDone? ==> s.running[op].write.id !in s.apps
    case _ => true
  }

  lemma HoldingDoesNotBreak(s: State, step: Step)
    requires StepInv(s) && Enabled(s, step) && Respects(s, step)
    requires forall op :: Holds(s, op)
    ensures !Breaks(s, step)
  {
    hide Sound, Scheduled, OnePerPair, FromSomeCall, Fits;
    if step.DoWrite? {
      var op := step.op;
      var w := s.running[op].write;
      assert Holds(s, op) && DecidedOk(s, op);
      assert Inserting(s.running, w.id) <= {op} && Resetting(s.running, w.id) <= {op};
    }
  }

  lemma StepKeepsHolding(s: State, step: Step, op: OpId)
    requires Enabled(s, step) && Respects(s, step) && forall other :: Holds(s, other)
    ensures Holds(Next(s, step), op)
  {
    hide Check, Holds, Respects;
    match step
    case Decide(_, _, _) => DecideKeepsHolding(s, step, op);
    case DoWrite(_) => WriteKeepsHolding(s, step.op, op);
    case Abandon(_) => EndKeepsHolding(s, step, op);
    case RowGone(_) => EndKeepsHolding(s, step, op);
  }

  lemma EndKeepsHolding(s: State, step: Step, op: OpId)
    requires Enabled(s, step) && Holds(s, op) && (step.Abandon? || step.RowGone?)
    ensures Holds(Next(s, step), op)
  {
    var s' := Next(s, step);
    if op in s'.running {
      FewerRivals(s, s', op);
    }
  }

  lemma FewerRivals(s: State, s': State, op: OpId)
    requires op in s'.running && op in s.running && s'.running[op].write == s.running[op].write
    requires forall other :: other in s'.running ==>
               other in s.running && s'.running[other].write == s.running[other].write
    ensures var id := s.running[op].write.id;
            forall other :: OnRow(s'.running, other, id) ==> OnRow(s.running, other, id)
    ensures forall other :: SamePair(s', op, other) ==> SamePair(s, op, other)
  {
  }

  lemma WriteKeepsHolding(s: State, writer: OpId, op: OpId)
    requires Enabled(s, DoWrite(writer)) && Holds(s, op) && Holds(s, writer)
    ensures Holds(Done(s, writer), op)
  {
    hide LegalStep;
    var s' := Done(s, writer);
    if op in s'.running {
      FewerRivals(s, s', op);
      if op != writer {
        assert !OnRow(s.running, writer, s.running[op].write.id) && !SamePair(s, op, writer);
        assert s.running[writer].write.id != s.running[op].write.id;
      }
    }
  }

  lemma DecideKeepsHolding(s: State, step: Step, op: OpId)
    requires step.Decide? && Enabled(s, step) && Respects(s, step) && Holds(s, op)
    ensures Holds(Next(s, step), op)
  {
    hide Check, LegalStep;
    var s' := Next(s, step);
    if step.op in s'.running && op in s'.running {
      var c := Check(step.dir, s.apps, step.call).value;
      forall other | other in s.running
        ensures s'.running[other] == s.running[other] && !OnRow(s.running, other, c.id)
      {
      }
      if op == step.op {
        CheckedWriteIsLegal(step.dir, s.apps, step.call);
        if c.CreateRow? {
          DecidedForNewPair(step.dir, s.apps, step.call);
        }
      }
      forall other | OnRow(s'.running, other, s'.running[op].write.id)
        ensures other == op
      {
        assert other != step.op ==> OnRow(s.running, other, s'.running[op].write.id);
      }
      forall other | SamePair(s', op, other)
        ensures other == op
      {
        assert op != step.op && other != step.op ==> SamePair(s, op, other);
      }
    }
  }

  lemma DecidedForNewPair(dir: Directory, apps: Table, call: Call)
    requires Check(dir, apps, call).Ok? && Check(dir, apps, call).value.CreateRow?
    ensures var w := Check(dir, apps, call).value; forall id :: id in apps ==> !IsFor(apps[id], w.candidate, w.job)
  {
  }

  /**
   * If every call held its row, or its candidate and job, from its look to its last database call, and did not
   * fail half-way, then no interleaving would go wrong.
   */
  lemma {:induction false} LocksAreEnough(states: seq<State>, steps: seq<Step>, n: nat)
    requires Path(states, steps) && n < |states| && StepInv(states[0]) && states[0].running == map[]
    requires forall m :: 0 <= m < |steps| ==> Respects(states[m], steps[m])
    ensures StepInv(states[n]) && forall op :: Holds(states[n], op)
  {
    hide StepInv, Respects, Breaks, Enabled;
    if n > 0 {
      LocksAreEnough(states, steps, n - 1);
      assert states[n - 1 + 1] == Next(states[n - 1], steps[n - 1]);
      assert Respects(states[n - 1], steps[n - 1]);
      HoldingDoesNotBreak(states[n - 1], steps[n - 1]);
      StepKeepsInvExactly(states[n - 1], steps[n - 1]);
      forall op
        ensures Holds(states[n], op)
      {
        StepKeepsHolding(states[n - 1], steps[n - 1], op);
      }
    }
  }

  // ------------------------------------------------------------------ what a call decides, and what can go wrong

  /** Whatever consistent table a call was checked on, it decides on a write of this shape. */
  lemma CheckedWriteIsFromSomeCall(dir: Directory, seen: Table, call: Call)
    requires Check(dir, seen, call).Ok?
    requires forall id :: id in seen ==> Sound(seen[id])
    ensures FromSomeCall(Check(dir, seen, call).value)
  {
    hide Check, Sound;
    CheckedWriteIsLegal(dir, seen, call);
    var w := Check(dir, seen, call).value;
    if !w.CreateRow? {
      LetterFieldsTogether(seen[w.id]);
    }
  }

  /**
   * For example: a recruiter schedules an interview; between its two database calls the candidate withdraws and
   * applies again, which deletes the new interview. Every status change met a row that allowed it, and the
   * application says InterviewScheduled with no interview.
   */
  lemma ScheduledWithoutInterview(interview: Interview) returns (states: seq<State>, steps: seq<Step>)
    ensures Path(states, steps) && Inv(states[0].apps) && states[0].running == map[]
    ensures var last := states[|steps|];
            && last.running == map[] && 0 in last.apps && !Inv(last.apps)
            && last.apps[0].status.InterviewScheduled? && last.apps[0].interviews == []
            && last.apps[0].history == [Applied, Withdrawn, Applied, InterviewScheduled]
            && LegalHistory(last.apps[0].history)
  {
    hide Check, LegalHistory, Good, FirstPart, LastPart, NewRow, Leads;
    var dir := Directory(map[1 := Candidate(0, false)], map[0 := 0], map[0 := 0]);
    var schedule, withdraw, again := AddInterview(0, interview), SetStatus(0, Withdrawn), ResetRow(0, 2);
    var a0 := NewRow(0, 0, 0);
    var a1 := FirstPart(a0, schedule);
    var a2 := LastPart(a1, withdraw);
    var a3 := FirstPart(a2, again);
    var a4 := LastPart(a3, again);
    var a5 := LastPart(a4, schedule);
    RowsOfTheRun(interview);
    ChecksPass(dir, a0, a1, a2, interview);
    InterviewMissing(a5);
    var none, half: map<OpId, Stage> := map[], map[0 := HalfDone(schedule)];
    DecideLeads(map[0 := a0], none, 0, dir, Schedule(0, 0, interview), schedule);
    FirstPartLeads(a0, none[0 := Decided(schedule)], 0, schedule);
    DecideLeads(map[0 := a1], half, 1, dir, Withdraw(0, 1), withdraw);
    LastPartLeads(a1, half[1 := Decided(withdraw)], 1, withdraw);
    DecideLeads(map[0 := a2], half, 2, dir, Apply(1, 0, 7, 2), again);
    FirstPartLeads(a2, half[2 := Decided(again)], 2, again);
    LastPartLeads(a3, half[2 := HalfDone(again)], 2, again);
    LastPartLeads(a4, half, 0, schedule);
    assert none[0 := Decided(schedule)][0 := HalfDone(schedule)] == half && half - {0} == none;
    assert half[1 := Decided(withdraw)] - {1} == half;
    assert half[2 := Decided(again)][2 := HalfDone(again)] == half[2 := HalfDone(again)];
    assert half[2 := HalfDone(again)] - {2} == half;
    steps := [Decide(0, dir, Schedule(0, 0, interview)), DoWrite(0), Decide(1, dir, Withdraw(0, 1)), DoWrite(1),
              Decide(2, dir, Apply(1, 0, 7, 2)), DoWrite(2), DoWrite(2), DoWrite(0)];
    states := [State(map[0 := a0], none), State(map[0 := a0], none[0 := Decided(schedule)]),
               State(map[0 := a1], half), State(map[0 := a1], half[1 := Decided(withdraw)]),
               State(map[0 := a2], half), State(map[0 := a2], half[2 := Decided(again)]),
               State(map[0 := a3], half[2 := HalfDone(again)]), State(map[0 := a4], half), State(map[0 := a5], none)];
    LeadsArePath(states, steps);
  }

  ghost predicate Leads(s: State, step: Step, s': State)
  {
    Enabled(s, step) && s' == Next(s, step)
  }

  lemma LeadsArePath(states: seq<State>, steps: seq<Step>)
    requires |states| == |steps| + 1
    requires forall n :: 0 <= n < |steps| ==> Leads(states[n], steps[n], states[n + 1])
    ensures Path(states, steps)
  {
    hide Enabled, Next;
    forall n | 0 <= n < |steps|
      ensures Enabled(states[n], steps[n]) && states[n + 1] == Next(states[n], steps[n])
    {
      assert Leads(states[n], steps[n], states[n + 1]);
    }
  }

  lemma DecideLeads(apps: Table, running: map<OpId, Stage>, op: OpId, dir: Directory, call: Call, w: Write)
    requires op !in running && Check(dir, apps, call) == Ok(w)
    ensures Leads(State(apps, running), Decide(op, dir, call), State(apps, running[op := Decided(w)]))
  {
    hide Check;
  }

  lemma FirstPartLeads(a: Application, running: map<OpId, Stage>, op: OpId, w: Write)
    requires op in running && running[op] == Decided(w) && InTwoParts(w) && w.id == 0
    ensures Leads(State(map[0 := a], running), DoWrite(op), State(map[0 := FirstPart(a, w)], running[op := HalfDone(w)]))
  {
    hide FirstPart;
    assert map[0 := a][0 := FirstPart(a, w)] == map[0 := FirstPart(a, w)];
  }

  lemma LastPartLeads(a: Application, running: map<OpId, Stage>, op: OpId, w: Write)
    requires op in running && running[op] == (if InTwoParts(w) then HalfDone(w) else Decided(w))
    requires !w.CreateRow? && w.id == 0
    ensures Leads(State(map[0 := a], running), DoWrite(op), State(map[0 := LastPart(a, w)], running - {op}))
  {
    hide LastPart;
    assert map[0 := a][0 := LastPart(a, w)] == map[0 := LastPart(a, w)];
  }

  lemma RowsOfTheRun(interview: Interview)
    ensures var schedule, withdraw, again := AddInterview(0, interview), SetStatus(0, Withdrawn), ResetRow(0, 2);
            var a0 := NewRow(0, 0, 0);
            var a1 := FirstPart(a0, schedule);
            var a2 := LastPart(a1, withdraw);
            var a5 := LastPart(LastPart(FirstPart(a2, again), again), schedule);
            && Good(a0) && IsFor(a0, 0, 0) && IsFor(a1, 0, 0) && IsFor(a2, 0, 0)
            && a0.status.Applied? && a1.status.Applied? && a2.status.Withdrawn? && a5.status.InterviewScheduled?
            && a5.history == [Applied, Withdrawn, Applied, InterviewScheduled] && a5.interviews == []
  {
    NewRowIsGood(0, 0, 0);
  }

  lemma InterviewMissing(a: Application)
    requires a.history == [Applied, Withdrawn, Applied, InterviewScheduled] && a.interviews == []
    ensures LegalHistory(a.history) && !Good(a)
  {
    var h := a.history;
    assert h[..3] == [Applied, Withdrawn, Applied];
    assert Cycle(h[..3]) == [Applied];
    assert Cycle(h) == [Applied] + [InterviewScheduled];
    CountSnoc([Applied], InterviewScheduled, InterviewScheduled);
  }

  /** The three calls of that run each find a row that allows them. */
  lemma ChecksPass(dir: Directory, a0: Application, a1: Application, a2: Application, interview: Interview)
    requires dir == Directory(map[1 := Candidate(0, false)], map[0 := 0], map[0 := 0])
    requires a0.status.Applied? && a1.status.Applied? && a2.status.Withdrawn?
    requires IsFor(a0, 0, 0) && IsFor(a1, 0, 0) && IsFor(a2, 0, 0)
    ensures Check(dir, map[0 := a0], Schedule(0, 0, interview)) == Ok(AddInterview(0, interview))
    ensures Check(dir, map[0 := a1], Withdraw(0, 1)) == Ok(SetStatus(0, Withdrawn))
    ensures Check(dir, map[0 := a2], Apply(1, 0, 7, 2)) == Ok(ResetRow(0, 2))
  {
    hide GetAllowedTransitions, FindFirst;
    AllowedExactly(Applied, InterviewScheduled);
    var apps := map[0 := a2];
    assert 0 in apps && IsFor(apps[0], 0, 0);
    assert FindFirst(apps, 0, 0) == Some(0);
  }

  /** For example: the candidate withdraws between a recruiter's check and write, and comes back shortlisted. */
  lemma WithdrawnThenShortlisted(dir: Directory, apps: Table, id: ApplicationId, recruiter: UserId, candidate: UserId)
    requires Inv(apps) && id in apps && apps[id].status.Applied?
    requires CheckProgress(dir, apps, id, recruiter, Shortlisted).Ok? && CheckWithdraw(dir, apps, id, candidate).Ok?
    ensures var between := Commit(apps, CheckWithdraw(dir, apps, id, candidate).value);
            var after := Commit(between, CheckProgress(dir, apps, id, recruiter, Shortlisted).value);
            Inv(between) && !Inv(after) && after[id].history == apps[id].history + [Withdrawn, Shortlisted]
  {
    hide Good, CheckProgress, CheckWithdraw;
    var between := Commit(apps, SetStatus(id, Withdrawn));
    WriteKeepsGoodExactly(apps[id], SetStatus(id, Withdrawn));
    assert OnePerPair(between) && between[id] == Written(apps[id], SetStatus(id, Withdrawn));
    assert forall i :: i in apps && i != id ==> between[i] == apps[i];
    WriteKeepsGoodExactly(between[id], SetStatus(id, Shortlisted));
    assert Commit(between, SetStatus(id, Shortlisted))[id] == Written(between[id], SetStatus(id, Shortlisted));
  }

  /** A create decided earlier keeps one row per pair exactly when no row for that pair has appeared since. */
  lemma LateCreateExactly(apps: Table, w: Write)
    requires OnePerPair(apps) && w.CreateRow? && w.id !in apps
    ensures OnePerPair(Commit(apps, w)) <==> forall id :: id in apps ==> !IsFor(apps[id], w.candidate, w.job)
  {
    var after := Commit(apps, w);
    if id :| id in apps && IsFor(apps[id], w.candidate, w.job) {
      assert id in after && w.id in after && id != w.id && IsFor(after[id], after[w.id].candidate, after[w.id].job);
    }
  }
}
