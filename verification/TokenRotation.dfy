/**
 * Rotation of refresh tokens under the API client's single flight: when no token is exchanged twice, and the
 * interleavings in which one is.
 */
module TokenRotation {
  import opened Basics
  import opened TokenRefresh

  /** The exchange may still revoke its token and create a successor. */
  predicate CanPass(v: Server, x: Exchange)
  {
    x.stage.Checked? || (x.stage.Received? && x.token.Some? && IsLive(v, x.token.value))
  }

  /** The exchange has used its token up: it revoked it, and created a successor or still may. */
  predicate UsedUp(x: Exchange)
  {
    x.stage.Revoked? || (x.stage.Finished? && x.stage.issued.Some?)
  }

  ghost predicate At(v: Server, x: ExchangeId)
  {
    x in v.exchanges
  }

  /** No token is exchanged twice. */
  ghost predicate ExchangedOnce(v: Server)
  {
    forall x, y :: At(v, x) && At(v, y) && UsedUp(v.exchanges[x]) && UsedUp(v.exchanges[y]) && x != y
                   ==> v.exchanges[x].token != v.exchanges[y].token
  }

  /** At most one token is live, and none is while a successor is about to be created. */
  ghost predicate OneLive(v: Server)
  {
    && (forall t, u :: IsLive(v, t) && IsLive(v, u) ==> t == u)
    && (forall x, y :: At(v, x) && At(v, y) && v.exchanges[x].stage.Revoked? && v.exchanges[y].stage.Revoked? ==> x == y)
    && (forall x, t :: At(v, x) && v.exchanges[x].stage.Revoked? ==> !IsLive(v, t))
  }

  ghost predicate Safe(v: Server)
  {
    ExchangedOnce(v) && OneLive(v)
  }

  ghost predicate OneCanPass(v: Server)
  {
    forall x, y :: At(v, x) && At(v, y) && CanPass(v, v.exchanges[x]) && CanPass(v, v.exchanges[y]) ==> x == y
  }

  /** What an exchange that passed its check can rely on until it revokes. */
  ghost predicate CheckedOk(v: Server, x: ExchangeId)
  {
    At(v, x) && v.exchanges[x].stage.Checked? ==>
      && v.exchanges[x].token.Some? && v.exchanges[x].token.value in v.live
      && (forall t :: IsLive(v, t) ==> t == v.exchanges[x].token.value)
      && (forall y :: At(v, y) ==> !v.exchanges[y].stage.Revoked?)
      && (forall y :: At(v, y) && UsedUp(v.exchanges[y]) ==> v.exchanges[x].token != v.exchanges[y].token)
  }

  ghost predicate UsedIsRevoked(v: Server, y: ExchangeId)
  {
    At(v, y) && UsedUp(v.exchanges[y]) ==>
      v.exchanges[y].token.Some? && v.exchanges[y].token.value in v.live && !v.live[v.exchanges[y].token.value]
  }

  ghost predicate RotationOk(v: Server)
  {
    && Safe(v)
    && OneCanPass(v)
    && (forall x :: CheckedOk(v, x))
    && (forall y :: UsedIsRevoked(v, y))
  }

  ghost predicate Inv(s: State)
  {
    ClientOk(s.client) && RotationOk(s.server)
  }

  /** Some exchange may still go through. */
  ghost predicate Busy(v: Server)
  {
    exists y :: At(v, y) && CanPass(v, v.exchanges[y])
  }

  /** The step sends a live token while an earlier exchange may still go through. */
  ghost predicate Overlaps(s: State, step: Step)
  {
    && step.Respond? && StartsPost(s.client, step.request, step.unauthorized)
    && s.client.cookie.Some? && IsLive(s.server, s.client.cookie.value) && Busy(s.server)
  }

  function WithExchange(v: Server, x: ExchangeId, token: Option<Token>): Server
  {
    v.(exchanges := v.exchanges[x := Exchange(token, Received)])
  }

  lemma SendKeepsRotation(v: Server, x: ExchangeId, token: Option<Token>)
    requires RotationOk(v) && x !in v.exchanges
    requires token.Some? && IsLive(v, token.value) ==> !Busy(v)
    ensures RotationOk(WithExchange(v, x, token))
  {
    hide CheckedOk, UsedIsRevoked, Safe, CanPass;
    var v' := WithExchange(v, x, token);
    NotYetUsed(v, v', x);
    forall y
      ensures CheckedOk(v', y)
      ensures y != x && At(v', y) && CanPass(v', v'.exchanges[y]) ==> At(v, y) && CanPass(v, v.exchanges[y])
    {
      if y == x {
        CheckedOkHere(v', x);
      } else {
        assert CheckedOk(v, y);
        SameCheck(v, v', x, y);
      }
    }
    assert CanPass(v', v'.exchanges[x]) ==> token.Some? && IsLive(v, token.value) by {
      ReceivedCanPass(v', x);
    }
  }

  lemma ReceivedCanPass(v: Server, x: ExchangeId)
    requires At(v, x) && v.exchanges[x].stage.Received?
    ensures CanPass(v, v.exchanges[x]) <==> v.exchanges[x].token.Some? && IsLive(v, v.exchanges[x].token.value)
  {
  }

  /** A change that only adds an exchange, or moves one to a stage in which it has not used its token up. */
  ghost predicate OnlyUnused(v: Server, v': Server, x: ExchangeId)
  {
    && v'.live == v.live && v'.exchanges.Keys == v.exchanges.Keys + {x}
    && (forall y :: At(v, y) && y != x ==> v'.exchanges[y] == v.exchanges[y])
    && (At(v, x) ==> v.exchanges[x].token == v'.exchanges[x].token && !UsedUp(v.exchanges[x]))
    && !UsedUp(v'.exchanges[x])
  }

  lemma UsedBefore(v: Server, v': Server, x: ExchangeId, y: ExchangeId)
    requires OnlyUnused(v, v', x)
    ensures At(v', y) && UsedUp(v'.exchanges[y]) ==> At(v, y) && v'.exchanges[y] == v.exchanges[y]
    ensures At(v', y) && v'.exchanges[y].stage.Revoked? ==> UsedUp(v'.exchanges[y])
    ensures UsedIsRevoked(v, y) ==> UsedIsRevoked(v', y)
  {
  }

  lemma NotYetUsed(v: Server, v': Server, x: ExchangeId)
    requires OnlyUnused(v, v', x)
    ensures Safe(v) ==> Safe(v')
    ensures (forall y :: UsedIsRevoked(v, y)) ==> forall y :: UsedIsRevoked(v', y)
  {
    assert forall t :: IsLive(v', t) <==> IsLive(v, t);
    forall y
      ensures At(v', y) && UsedUp(v'.exchanges[y]) ==> At(v, y) && v'.exchanges[y] == v.exchanges[y]
      ensures At(v', y) && v'.exchanges[y].stage.Revoked? ==> UsedUp(v'.exchanges[y])
      ensures UsedIsRevoked(v, y) ==> UsedIsRevoked(v', y)
    {
      UsedBefore(v, v', x, y);
    }
    hide UsedUp, OnlyUnused, UsedIsRevoked, IsLive;
  }

  lemma SameCheck(v: Server, v': Server, x: ExchangeId, y: ExchangeId)
    requires OnlyUnused(v, v', x) && x != y
    ensures CheckedOk(v, y) ==> CheckedOk(v', y)
    ensures At(v, y) <==> At(v', y)
    ensures At(v, y) ==> (CanPass(v', v'.exchanges[y]) <==> CanPass(v, v.exchanges[y]))
  {
    assert forall t :: IsLive(v', t) <==> IsLive(v, t);
  }

  lemma CheckKeepsRotation(v: Server, x: ExchangeId, passes: bool)
    requires RotationOk(v) && x in v.exchanges && v.exchanges[x].stage.Received?
    requires passes ==> v.exchanges[x].token.Some? && IsLive(v, v.exchanges[x].token.value)
    ensures RotationOk(WithStage(v, x, if passes then Checked else Finished(None)))
  {
    hide CheckedOk, UsedIsRevoked, Safe, CanPass;
    var v' := WithStage(v, x, if passes then Checked else Finished(None));
    NotYetUsed(v, v', x);
    forall y
      ensures CheckedOk(v', y)
      ensures At(v', y) && CanPass(v', v'.exchanges[y]) ==> CanPass(v, v.exchanges[y])
    {
      if y == x {
        PassedCheck(v, x, passes);
      } else {
        SameCheck(v, v', x, y);
        assert CheckedOk(v, y);
      }
    }
  }

  lemma PassedCheck(v: Server, x: ExchangeId, passes: bool)
    requires RotationOk(v) && x in v.exchanges && v.exchanges[x].stage.Received?
    requires passes ==> v.exchanges[x].token.Some? && IsLive(v, v.exchanges[x].token.value)
    ensures var v' := WithStage(v, x, if passes then Checked else Finished(None));
            CheckedOk(v', x) && (CanPass(v', v'.exchanges[x]) ==> CanPass(v, v.exchanges[x]))
  {
    hide CheckedOk;
    var v' := WithStage(v, x, if passes then Checked else Finished(None));
    if passes {
      LiveIsUnused(v, v.exchanges[x].token.value);
      assert forall t :: IsLive(v', t) <==> IsLive(v, t);
      CheckedOkHere(v', x);
    } else {
      CheckedOkHere(v', x);
    }
  }

  /** While a token is live, no exchange has used it up, and none is between revoking and creating. */
  lemma LiveIsUnused(v: Server, t: Token)
    requires RotationOk(v) && IsLive(v, t)
    ensures forall u :: IsLive(v, u) ==> u == t
    ensures forall y :: At(v, y) ==> !v.exchanges[y].stage.Revoked?
    ensures forall y :: At(v, y) && UsedUp(v.exchanges[y]) ==> v.exchanges[y].token != Some(t)
  {
    forall y | At(v, y) && UsedUp(v.exchanges[y])
      ensures v.exchanges[y].token != Some(t)
    {
      assert UsedIsRevoked(v, y);
    }
  }

  lemma CheckedOkHere(v: Server, x: ExchangeId)
    requires At(v, x)
    requires v.exchanges[x].stage.Checked? ==> v.exchanges[x].token.Some? && v.exchanges[x].token.value in v.live
    requires v.exchanges[x].stage.Checked? ==> forall t :: IsLive(v, t) ==> t == v.exchanges[x].token.value
    requires v.exchanges[x].stage.Checked? ==> forall y :: At(v, y) ==> !v.exchanges[y].stage.Revoked?
    requires v.exchanges[x].stage.Checked?
         ==> forall y :: At(v, y) && UsedUp(v.exchanges[y]) ==> v.exchanges[x].token != v.exchanges[y].token
    ensures CheckedOk(v, x)
  {
  }

  lemma RevokeKeepsRotation(v: Server, x: ExchangeId)
    requires RotationOk(v) && x in v.exchanges && v.exchanges[x].stage.Checked? && v.exchanges[x].token.Some?
    ensures RotationOk(WithRevoked(v, x))
  {
    var t := v.exchanges[x].token.value;
    var v' := WithRevoked(v, x);
    assert CheckedOk(v, x);
    forall u
      ensures !IsLive(v', u)
    {
      assert IsLive(v, u) ==> u == t;
    }
    forall y
      ensures CheckedOk(v', y) && UsedIsRevoked(v', y)
    {
      assert CheckedOk(v, y) && UsedIsRevoked(v, y);
      assert At(v, y) && v.exchanges[y].stage.Checked? ==> CanPass(v, v.exchanges[y]) && CanPass(v, v.exchanges[x]);
    }
  }

  /** Between revoking and creating nothing is live, and no other exchange may go through. */
  lemma NothingPassesMeanwhile(v: Server, x: ExchangeId, y: ExchangeId)
    requires RotationOk(v) && x in v.exchanges && v.exchanges[x].stage.Revoked?
    ensures forall t :: !IsLive(v, t)
    ensures At(v, y) ==> !CanPass(v, v.exchanges[y]) && (v.exchanges[y].stage.Revoked? ==> y == x)
  {
    assert CheckedOk(v, y);
  }

  lemma CreateKeepsRotation(v: Server, x: ExchangeId, issued: Option<Token>)
    requires RotationOk(v) && x in v.exchanges && v.exchanges[x].stage.Revoked?
    requires issued.Some? ==> IsFresh(v, issued.value)
    ensures RotationOk(WithIssued(v, x, issued))
  {
    var v' := WithIssued(v, x, issued);
    forall y
      ensures !(At(v', y) && CanPass(v', v'.exchanges[y])) && !(At(v', y) && v'.exchanges[y].stage.Revoked?)
      ensures CheckedOk(v', y) && UsedIsRevoked(v', y)
      ensures At(v', y) && UsedUp(v'.exchanges[y]) ==> At(v, y) && UsedUp(v.exchanges[y])
      ensures At(v', y) ==> v'.exchanges[y].token == v.exchanges[y].token
    {
      NothingPassesMeanwhile(v, x, y);
      assert UsedIsRevoked(v, y);
    }
    NothingPassesMeanwhile(v, x, x);
    forall t: Token
      ensures IsLive(v', t) <==> issued == Some(t)
    {
      assert !IsLive(v, t);
    }
    hide CanPass, CheckedOk, UsedIsRevoked, UsedUp, IsLive, WithIssued;
  }

  lemma RevokeElsewhereKeepsRotation(v: Server, t: Token)
    requires RotationOk(v) && t in v.live
    ensures RotationOk(v.(live := v.live[t := false]))
  {
    var v' := v.(live := v.live[t := false]);
    assert forall u :: IsLive(v', u) ==> IsLive(v, u);
    forall y
      ensures CheckedOk(v', y) && UsedIsRevoked(v', y)
    {
      assert CheckedOk(v, y) && UsedIsRevoked(v, y);
    }
  }

  lemma StepKeepsRotation(s: State, step: Step)
    requires RotationOk(s.server) && Enabled(s, step) && !Overlaps(s, step)
    ensures RotationOk(Next(s, step).server)
  {
    hide RotationOk;
    match step
    case Check(x, passes) => CheckKeepsRotation(s.server, x, passes);
    case Revoke(x) => RevokeKeepsRotation(s.server, x);
    case Create(x, issued) => CreateKeepsRotation(s.server, x, issued);
    case RevokeElsewhere(t) => RevokeElsewhereKeepsRotation(s.server, t);
    case Respond(r, unauthorized, p, x) =>
      if StartsPost(s.client, r, unauthorized) {
        SendKeepsRotation(s.server, x, s.client.cookie);
      }
    case _ =>
  }

  /** Every step but an overlapping send keeps the protocol invariant. */
  lemma StepKeepsInv(s: State, step: Step)
    requires Inv(s) && Enabled(s, step) && !Overlaps(s, step)
    ensures Inv(Next(s, step))
  {
    hide ClientOk, RotationOk, Overlaps;
    StepKeepsClientOk(s, step);
    StepKeepsRotation(s, step);
  }

  // ------------------------------------------------------------------ whole runs

  ghost predicate NeverOverlaps(states: seq<State>, steps: seq<Step>)
  {
    forall n :: 0 <= n < |steps| && n < |states| ==> !Overlaps(states[n], steps[n])
  }

  lemma InitialIsOk(s: State)
    requires Initial(s)
    ensures Inv(s)
  {
  }

  lemma {:induction false} PathKeepsInv(states: seq<State>, steps: seq<Step>, n: nat)
    requires Path(states, steps) && n < |states| && NeverOverlaps(states, steps)
    ensures Inv(states[n])
  {
    hide Inv, Initial, Overlaps;
    if n > 0 {
      PathKeepsInv(states, steps, n - 1);
      StepKeepsInv(states[n - 1], steps[n - 1]);
      assert states[n - 1 + 1] == Next(states[n - 1], steps[n - 1]);
    } else {
      InitialIsOk(states[0]);
    }
  }

  /** Rotation is safe in every run in which no live token is sent while an earlier exchange may still go through. */
  lemma RotationIsSafe(states: seq<State>, steps: seq<Step>, n: nat)
    requires Path(states, steps) && n < |states| && NeverOverlaps(states, steps)
    ensures Safe(states[n].server)
  {
    PathKeepsInv(states, steps, n);
  }

  // ------------------------------------------------------------------ lost responses are harmless

  /** The connection fails while the server may still exchange the token it was sent. */
  predicate FailsEarly(s: State, step: Step)
    requires Enabled(s, step)
  {
    && step.Fail? && s.client.posts[step.promise].exchange in s.server.exchanges
    && CanPass(s.server, s.server.exchanges[s.client.posts[step.promise].exchange])
  }

  /** Every exchange that may still go through is the one a running POST waits for. */
  ghost predicate Attached(s: State)
  {
    forall x :: At(s.server, x) && CanPass(s.server, s.server.exchanges[x]) ==>
      exists p :: p in s.client.posts && s.client.posts[p] == Sent(x)
  }

  lemma StepKeepsAttached(s: State, step: Step)
    requires ClientOk(s.client) && Attached(s) && Enabled(s, step) && !FailsEarly(s, step)
    ensures Attached(Next(s, step)) && !Overlaps(s, step)
  {
    hide RequestOk;
    var s' := Next(s, step);
    forall x | At(s'.server, x) && CanPass(s'.server, s'.server.exchanges[x])
      ensures exists p :: p in s'.client.posts && s'.client.posts[p] == Sent(x)
    {
      if At(s.server, x) {
        assert CanPass(s.server, s.server.exchanges[x]);
        var p :| p in s.client.posts && s.client.posts[p] == Sent(x);
        assert p in s'.client.posts && s'.client.posts[p] == Sent(x);
      } else {
        assert step.promise in s'.client.posts && s'.client.posts[step.promise] == Sent(x);
      }
    }
  }

  lemma {:induction false} PathStaysAttached(states: seq<State>, steps: seq<Step>, n: nat)
    requires Path(states, steps) && n < |states|
    requires forall m :: 0 <= m < |steps| ==> !FailsEarly(states[m], steps[m])
    ensures Attached(states[n])
  {
    hide ClientOk, Attached, FailsEarly, Overlaps;
    if n > 0 {
      PathStaysAttached(states, steps, n - 1);
      PathKeepsClientOk(states, steps, n - 1);
      StepKeepsAttached(states[n - 1], steps[n - 1]);
      assert states[n - 1 + 1] == Next(states[n - 1], steps[n - 1]);
    } else {
      NothingToAttach(states[0]);
    }
  }

  lemma NothingToAttach(s: State)
    requires Initial(s)
    ensures Attached(s)
  {
  }

  /** Responses may get lost: unless the server may still exchange the token by then, no token is exchanged twice. */
  lemma LostResponsesAreSafe(states: seq<State>, steps: seq<Step>, n: nat)
    requires Path(states, steps) && n < |states|
    requires forall m :: 0 <= m < |steps| ==> !FailsEarly(states[m], steps[m])
    ensures Safe(states[n].server)
  {
    forall m | 0 <= m < |steps|
      ensures !Overlaps(states[m], steps[m])
    {
      PathStaysAttached(states, steps, m);
      PathKeepsClientOk(states, steps, m);
      StepKeepsAttached(states[m], steps[m]);
    }
    RotationIsSafe(states, steps, n);
  }

  // ------------------------------------------------------------------ an overlapping send is not

  ghost predicate Runs(s: State, steps: seq<Step>)
    decreases |steps|
  {
    steps == [] || (Enabled(s, steps[0]) && Runs(Next(s, steps[0]), steps[1..]))
  }

  ghost function Final(s: State, steps: seq<Step>): State
    requires Runs(s, steps)
    decreases |steps|
  {
    if steps == [] then s else Final(Next(s, steps[0]), steps[1..])
  }

  lemma RunsCons(s: State, step: Step, steps: seq<Step>)
    requires Enabled(s, step) && Runs(Next(s, step), steps)
    ensures Runs(s, [step] + steps) && Final(s, [step] + steps) == Final(Next(s, step), steps)
  {
    assert ([step] + steps)[1..] == steps;
  }

  /** Two exchanges of one token that both passed the check both go through. */
  lemma BothCheckedBothRevoke(s: State, x: ExchangeId, y: ExchangeId) returns (steps: seq<Step>)
    requires x != y && x in s.server.exchanges && y in s.server.exchanges
    requires s.server.exchanges[x].stage.Checked? && s.server.exchanges[y].stage.Checked?
    requires s.server.exchanges[x].token == s.server.exchanges[y].token && s.server.exchanges[x].token.Some?
    ensures Runs(s, steps) && !ExchangedOnce(Final(s, steps).server) && SendsNothing(steps)
  {
    var s1 := Next(s, Revoke(x));
    var s2 := Next(s1, Revoke(y));
    RunsCons(s1, Revoke(y), []);
    RunsCons(s, Revoke(x), [Revoke(y)]);
    steps := [Revoke(x)] + [Revoke(y)];
    assert [Revoke(y)] + [] == [Revoke(y)];
    assert At(s2.server, x) && At(s2.server, y) && UsedUp(s2.server.exchanges[x]) && UsedUp(s2.server.exchanges[y]);
  }

  lemma PassCheck(s: State, x: ExchangeId) returns (steps: seq<Step>)
    requires x in s.server.exchanges && CanPass(s.server, s.server.exchanges[x])
    ensures Runs(s, steps) && SendsNothing(steps)
    ensures Final(s, steps).client == s.client && Final(s, steps).server.live == s.server.live
    ensures Final(s, steps).server.exchanges == s.server.exchanges[x := Exchange(s.server.exchanges[x].token, Checked)]
  {
    if s.server.exchanges[x].stage.Checked? {
      steps := [];
    } else {
      RunsCons(s, Check(x, true), []);
      steps := [Check(x, true)] + [];
    }
  }

  lemma {:induction false} RunsAppend(s: State, a: seq<Step>, b: seq<Step>)
    requires Runs(s, a) && Runs(Final(s, a), b)
    ensures Runs(s, a + b) && Final(s, a + b) == Final(Final(s, a), b)
    decreases |a|
  {
    if a == [] {
      assert a + b == b;
    } else {
      assert (a + b)[1..] == a[1..] + b;
      RunsAppend(Next(s, a[0]), a[1..], b);
    }
  }

  /** Two exchanges of one live token that have both still to revoke it can both go through. */
  lemma BothGoThrough(s: State, x: ExchangeId, y: ExchangeId) returns (steps: seq<Step>)
    requires x != y && At(s.server, x) && At(s.server, y)
    requires CanPass(s.server, s.server.exchanges[x]) && CanPass(s.server, s.server.exchanges[y])
    requires s.server.exchanges[x].token == s.server.exchanges[y].token && s.server.exchanges[x].token.Some?
    ensures Runs(s, steps) && !ExchangedOnce(Final(s, steps).server) && SendsNothing(steps)
  {
    hide ExchangedOnce;
    var a := PassCheck(s, y);
    var s1 := Final(s, a);
    var b := PassCheck(s1, x);
    var s2 := Final(s1, b);
    var c := BothCheckedBothRevoke(s2, x, y);
    RunsAppend(s1, b, c);
    RunsAppend(s, a, b + c);
    steps := a + (b + c);
  }

  /** At most one token is live, and it is the one an exchange that may go through carries. */
  lemma BusyWithLiveToken(v: Server, t: Token, y: ExchangeId)
    requires RotationOk(v) && IsLive(v, t) && At(v, y) && CanPass(v, v.exchanges[y])
    ensures v.exchanges[y].token == Some(t)
  {
    assert CheckedOk(v, y);
  }

  /**
   * The other way round: whenever a live token is sent while an earlier exchange may still go through, which
   * takes a failed connection and a server that is still busy, a run follows that exchanges the token twice.
   */
  lemma OverlapExchangesTwice(s: State, step: Step) returns (steps: seq<Step>)
    requires Inv(s) && Enabled(s, step) && Overlaps(s, step)
    ensures Runs(Next(s, step), steps) && !ExchangedOnce(Final(Next(s, step), steps).server)
    ensures SendsNothing(steps)
  {
    hide ClientOk, RotationOk, ExchangedOnce, OneLive;
    var y :| At(s.server, y) && CanPass(s.server, s.server.exchanges[y]);
    BusyWithLiveToken(s.server, s.client.cookie.value, y);
    steps := BothGoThrough(Next(s, step), step.exchange, y);
  }

  ghost predicate SendsNothing(steps: seq<Step>)
  {
    forall n :: 0 <= n < |steps| ==> !steps[n].Respond?
  }

  lemma {:induction false} QuietRunIsSafe(s: State, steps: seq<Step>)
    requires Inv(s) && Runs(s, steps) && SendsNothing(steps)
    ensures Safe(Final(s, steps).server)
    decreases |steps|
  {
    hide Inv, Enabled;
    if steps == [] {
      InvIsSafe(s);
    } else {
      assert !Overlaps(s, steps[0]);
      StepKeepsInv(s, steps[0]);
      assert forall n :: 0 <= n < |steps| - 1 ==> steps[1..][n] == steps[n + 1];
      QuietRunIsSafe(Next(s, steps[0]), steps[1..]);
    }
  }

  lemma InvIsSafe(s: State)
    requires Inv(s)
    ensures Safe(s.server)
  {
  }

  /** So a step keeps rotation safe for whatever the server does next exactly when it is no overlapping send. */
  lemma SendIsSafeExactly(s: State, step: Step)
    requires Inv(s) && Enabled(s, step)
    ensures !Overlaps(s, step)
            <==> forall steps :: Runs(Next(s, step), steps) && SendsNothing(steps) ==> Safe(Final(Next(s, step), steps).server)
  {
    hide Inv, Enabled, Overlaps;
    if Overlaps(s, step) {
      var steps := OverlapExchangesTwice(s, step);
      assert !Safe(Final(Next(s, step), steps).server);
    } else {
      StepKeepsInv(s, step);
      forall steps | Runs(Next(s, step), steps) && SendsNothing(steps)
        ensures Safe(Final(Next(s, step), steps).server)
      {
        QuietRunIsSafe(Next(s, step), steps);
      }
    }
  }

  /** Two requests meet a 401, and the first refresh fails on the way: both refreshes reach the server. */
  lemma SecondSend(s: State) returns (steps: seq<Step>)
    requires Initial(s)
    ensures Runs(s, steps) && Final(s, steps).server.live == s.server.live
    ensures var x := Exchange(s.client.cookie, Received); Final(s, steps).server.exchanges == map[0 := x, 1 := x]
  {
    hide IsLive;
    var s1 := Next(s, Start(0, true));
    var s2 := Next(s1, Start(1, true));
    var s3 := Next(s2, Respond(0, true, 0, 0));
    var s4 := Next(s3, Fail(0));
    var s5 := Next(s4, Finish(0, false));
    RunsCons(s5, Respond(1, true, 1, 1), []);
    steps := [Respond(1, true, 1, 1)] + [];
    RunsCons(s4, Finish(0, false), steps);
    steps := [Finish(0, false)] + steps;
    RunsCons(s3, Fail(0), steps);
    steps := [Fail(0)] + steps;
    RunsCons(s2, Respond(0, true, 0, 0), steps);
    steps := [Respond(0, true, 0, 0)] + steps;
    RunsCons(s1, Start(1, true), steps);
    steps := [Start(1, true)] + steps;
    RunsCons(s, Start(0, true), steps);
    steps := [Start(0, true)] + steps;
  }

  /** So an early failure can break rotation after any page load with a live session. */
  lemma EarlyFailureExchangesTwice(s: State) returns (steps: seq<Step>)
    requires Initial(s) && s.client.cookie.Some? && IsLive(s.server, s.client.cookie.value)
    ensures Runs(s, steps) && !ExchangedOnce(Final(s, steps).server)
  {
    hide ExchangedOnce, Initial;
    var a := SecondSend(s);
    var b := BothGoThrough(Final(s, a), 0, 1);
    RunsAppend(s, a, b);
    steps := a + b;
  }

  // ------------------------------------------------------------------ a refresh from end to end

  /** A page that has loaded sends a request, and it is answered 401: the cookie is on its way to the server. */
  function Refreshing(s: State): State
  {
    State(s.client.(requests := map[0 := Request(Waiting(0), 1)], refreshInFlight := Some(0), posts := map[0 := Sent(0)]),
          s.server.(exchanges := map[0 := Exchange(s.client.cookie, Received)]))
  }

  /** The server is done with it, and the answer reaches the request that waits. */
  lemma AnsweredRun(s: State, issued: Option<Token>) returns (steps: seq<Step>)
    requires s.client.requests == map[0 := Request(Waiting(0), 1)] && s.client.posts == map[0 := Sent(0)]
    requires s.client.outcomes == map[] && !s.client.sessionExpiredDispatched && s.client.expiredEvents == 0
    requires 0 in s.server.exchanges && s.server.exchanges[0].stage == Finished(issued)
    ensures Runs(s, steps) && Final(s, steps).server == s.server
    ensures var c := Final(s, steps).client;
            && c.refreshInFlight.None? && c.posts == map[] && c.outcomes == map[0 := issued.Some?]
            && c.cookie == (if issued.Some? then issued else s.client.cookie)
            && c.expiredEvents == (if issued.Some? then 0 else 1)
            && c.requests == map[0 := if issued.Some? then Request(Fetching(true, true), 2) else Request(Done, 1)]
  {
    var s1 := Next(s, Answer(0));
    var s2 := Next(s1, Finish(0, issued.Some?));
    RunsCons(s2, Resume(0), []);
    steps := [Resume(0)] + [];
    RunsCons(s1, Finish(0, issued.Some?), steps);
    steps := [Finish(0, issued.Some?)] + steps;
    RunsCons(s, Answer(0), steps);
    steps := [Answer(0)] + steps;
  }

  lemma FirstRequestRun(s: State) returns (steps: seq<Step>)
    requires Initial(s)
    ensures Runs(s, steps) && Final(s, steps) == Refreshing(s)
  {
    hide IsLive;
    var s1 := Next(s, Start(0, true));
    assert Next(s1, Respond(0, true, 0, 0)) == Refreshing(s);
    RunsCons(s1, Respond(0, true, 0, 0), []);
    steps := [Respond(0, true, 0, 0)] + [];
    RunsCons(s, Start(0, true), steps);
    steps := [Start(0, true)] + steps;
  }

  /**
   * With a live cookie, and a server that lets the account log in, the request is sent again with a new cookie, the
   * new token is the only live one, and the session goes on.
   */
  lemma RefreshThenRetry(s: State, t: Token) returns (steps: seq<Step>)
    requires Initial(s) && s.client.cookie.Some? && IsLive(s.server, s.client.cookie.value) && t !in s.server.live
    ensures Runs(s, steps)
    ensures var end := Final(s, steps);
            && end.client.requests == map[0 := Request(Fetching(true, true), 2)] && end.client.cookie == Some(t)
            && end.client.expiredEvents == 0 && end.client.refreshInFlight.None?
            && forall u :: IsLive(end.server, u) <==> u == t
  {
    var a := FirstRequestRun(s);
    var s1 := Refreshing(s);
    var s2 := Next(s1, Check(0, true));
    var s3 := Next(s2, Revoke(0));
    var s4 := Next(s3, Create(0, Some(t)));
    var c := AnsweredRun(s4, Some(t));
    var end := Final(s4, c);
    forall u
      ensures IsLive(end.server, u) <==> u == t
    {
      assert IsLive(s.server, u) ==> u == s.client.cookie.value;
    }
    hide Next, Enabled, IsLive, Initial;
    RunsCons(s3, Create(0, Some(t)), c);
    RunsCons(s2, Revoke(0), [Create(0, Some(t))] + c);
    var b := [Revoke(0)] + ([Create(0, Some(t))] + c);
    RunsCons(s1, Check(0, true), b);
    RunsAppend(s, a, [Check(0, true)] + b);
    steps := a + ([Check(0, true)] + b);
  }

  /** And when the server turns the cookie down, the request and the session are over. */
  lemma RefreshRefused(s: State) returns (steps: seq<Step>)
    requires Initial(s)
    ensures Runs(s, steps)
    ensures var end := Final(s, steps);
            && end.client.requests == map[0 := Request(Done, 1)] && end.client.expiredEvents == 1
            && end.client.cookie == s.client.cookie && end.server.live == s.server.live
  {
    var a := FirstRequestRun(s);
    var s1 := Refreshing(s);
    var s2 := Next(s1, Check(0, false));
    var c := AnsweredRun(s2, None);
    hide Next, Enabled, IsLive, Initial;
    RunsCons(s1, Check(0, false), c);
    RunsAppend(s, a, [Check(0, false)] + c);
    steps := a + ([Check(0, false)] + c);
  }
}
