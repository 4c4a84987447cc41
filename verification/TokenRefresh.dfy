/**
 * The API client of one page load (frontend/src/api/client.ts) against the refresh-token rotation of the
 * server (auth.service.ts, auth.repository.ts), as interleaved steps.
 *
 * A client step is one turn of JavaScript: no other code runs inside it. The server handles a refresh in
 * three separate steps: it checks the token, revokes it, and creates the next one. The network may fail at
 * any time, before, while or after the server works on a request.
 */
module TokenRefresh {
  import opened Basics

  type RequestId = nat
  type PromiseId = nat
  type ExchangeId = nat
  type Token = nat

  // ------------------------------------------------------------------ the client

  datatype Phase =
    | Fetching(isRetry: bool, mayRefresh: bool)
    | Waiting(promise: PromiseId)
    | Done

  /** A call of `apiClient.request`, and how many fetches it has made. */
  datatype Request = Request(phase: Phase, fetches: nat)

  /** A running `POST /auth/refresh`: on its way, or answered (with a new cookie or not). */
  datatype Post = Sent(exchange: ExchangeId) | Answered(ok: bool)

  datatype Client = Client(
    refreshInFlight: Option<PromiseId>,
    posts: map<PromiseId, Post>,
    outcomes: map<PromiseId, bool>,
    sessionExpiredDispatched: bool,
    expiredEvents: nat,
    requests: map<RequestId, Request>,
    cookie: Option<Token>)

  // ------------------------------------------------------------------ the server

  datatype Stage = Received | Checked | Revoked | Finished(issued: Option<Token>)

  /** One refresh request at the server, with the cookie it carried. */
  datatype Exchange = Exchange(token: Option<Token>, stage: Stage)

  /** The refresh-token rows, each live or revoked, and the requests being handled. */
  datatype Server = Server(live: map<Token, bool>, exchanges: map<ExchangeId, Exchange>)

  datatype State = State(client: Client, server: Server)

  datatype Step =
    | Start(request: RequestId, mayRefresh: bool)
    | Respond(request: RequestId, unauthorized: bool, promise: PromiseId, exchange: ExchangeId)
    | Answer(promise: PromiseId)
    | Fail(promise: PromiseId)
    | Finish(promise: PromiseId, ok: bool)
    | Resume(request: RequestId)
    | Check(exchange: ExchangeId, passes: bool)
    | Revoke(exchange: ExchangeId)
    | Create(exchange: ExchangeId, issued: Option<Token>)
    | RevokeElsewhere(token: Token)

  /** The 401 path of `request`: first attempt, and not one of the auth endpoints. */
  predicate WantsRefresh(r: Request, unauthorized: bool)
  {
    r.phase.Fetching? && unauthorized && !r.phase.isRetry && r.phase.mayRefresh
  }

  /** The response starts a new refresh: no other one is in flight. */
  predicate StartsPost(c: Client, request: RequestId, unauthorized: bool)
  {
    request in c.requests && WantsRefresh(c.requests[request], unauthorized) && c.refreshInFlight.None?
  }

  /** A newly signed token: no row has it, and nobody has sent it yet. */
  predicate IsFresh(v: Server, t: Token)
  {
    t !in v.live && forall x :: x in v.exchanges ==> v.exchanges[x].token != Some(t)
  }

  predicate Enabled(s: State, step: Step)
  {
    match step
    case Start(r, _) => r !in s.client.requests
    case Respond(r, unauthorized, p, x) =>
      && r in s.client.requests && s.client.requests[r].phase.Fetching?
      && p !in s.client.posts && p !in s.client.outcomes && x !in s.server.exchanges
    case Answer(p) =>
      && p in s.client.posts && s.client.posts[p].Sent? && s.client.posts[p].exchange in s.server.exchanges
      && s.server.exchanges[s.client.posts[p].exchange].stage.Finished?
    case Fail(p) => p in s.client.posts && s.client.posts[p].Sent?
    case Finish(p, ok) => p in s.client.posts && s.client.posts[p].Answered? && (ok ==> s.client.posts[p].ok)
    case Resume(r) =>
      && r in s.client.requests && s.client.requests[r].phase.Waiting?
      && s.client.requests[r].phase.promise in s.client.outcomes
    case Check(x, passes) =>
      && x in s.server.exchanges && s.server.exchanges[x].stage.Received?
      && (passes ==> && s.server.exchanges[x].token.Some?
                     && s.server.exchanges[x].token.value in s.server.live
                     && s.server.live[s.server.exchanges[x].token.value])
    case Revoke(x) => x in s.server.exchanges && s.server.exchanges[x].stage.Checked? && s.server.exchanges[x].token.Some?
    case Create(x, issued) =>
      && x in s.server.exchanges && s.server.exchanges[x].stage.Revoked?
      && (issued.Some? ==> IsFresh(s.server, issued.value))
    case RevokeElsewhere(t) => t in s.server.live
  }

  // ------------------------------------------------------------------ one step

  /** `handleSessionExpired`. */
  function Expired(c: Client): Client
  {
    if c.sessionExpiredDispatched then c
    else c.(sessionExpiredDispatched := true, expiredEvents := c.expiredEvents + 1)
  }

  function WithPhase(c: Client, r: RequestId, phase: Phase): Client
    requires r in c.requests
  {
    c.(requests := c.requests[r := c.requests[r].(phase := phase)])
  }

  /** A response arrives: retry path, `tryRefreshToken`, or the end of the request. */
  function Responded(c: Client, r: RequestId, unauthorized: bool, p: PromiseId, x: ExchangeId): Client
    requires r in c.requests
  {
    if !WantsRefresh(c.requests[r], unauthorized) then WithPhase(c, r, Done)
    else if c.refreshInFlight.Some? then WithPhase(c, r, Waiting(c.refreshInFlight.value))
    else WithPhase(c, r, Waiting(p)).(refreshInFlight := Some(p), posts := c.posts[p := Sent(x)])
  }

  function Resumed(c: Client, r: RequestId): Client
    requires r in c.requests && c.requests[r].phase.Waiting? && c.requests[r].phase.promise in c.outcomes
  {
    if c.outcomes[c.requests[r].phase.promise] then
      c.(requests := c.requests[r := Request(Fetching(true, true), c.requests[r].fetches + 1)])
    else WithPhase(Expired(c), r, Done)
  }

  function Started(c: Client, r: RequestId, mayRefresh: bool): Client
  {
    c.(requests := c.requests[r := Request(Fetching(false, mayRefresh), 1)])
  }

  function WithAnswer(c: Client, p: PromiseId, issued: Option<Token>): Client
  {
    c.(posts := c.posts[p := Answered(issued.Some?)], cookie := if issued.Some? then issued else c.cookie)
  }

  function WithoutPost(c: Client, p: PromiseId, ok: bool): Client
  {
    c.(posts := c.posts - {p}, refreshInFlight := None, outcomes := c.outcomes[p := ok])
  }

  function WithStage(v: Server, x: ExchangeId, stage: Stage): Server
    requires x in v.exchanges
  {
    v.(exchanges := v.exchanges[x := v.exchanges[x].(stage := stage)])
  }

  function WithRevoked(v: Server, x: ExchangeId): Server
    requires x in v.exchanges && v.exchanges[x].token.Some?
  {
    WithStage(v, x, Revoked).(live := v.live[v.exchanges[x].token.value := false])
  }

  function WithIssued(v: Server, x: ExchangeId, issued: Option<Token>): Server
    requires x in v.exchanges
  {
    WithStage(v, x, Finished(issued)).(live := if issued.Some? then v.live[issued.value := true] else v.live)
  }

  function Next(s: State, step: Step): State
    requires Enabled(s, step)
  {
    var c, v := s.client, s.server;
    match step
    case Start(r, mayRefresh) => s.(client := Started(c, r, mayRefresh))
    case Respond(r, unauthorized, p, x) =>
      State(Responded(c, r, unauthorized, p, x),
            if StartsPost(c, r, unauthorized) then v.(exchanges := v.exchanges[x := Exchange(c.cookie, Received)]) else v)
    case Answer(p) => s.(client := WithAnswer(c, p, v.exchanges[c.posts[p].exchange].stage.issued))
    case Fail(p) => s.(client := WithAnswer(c, p, None))
    case Finish(p, ok) => s.(client := WithoutPost(c, p, ok))
    case Resume(r) => s.(client := Resumed(c, r))
    case Check(x, passes) => s.(server := WithStage(v, x, if passes then Checked else Finished(None)))
    case Revoke(x) => s.(server := WithRevoked(v, x))
    case Create(x, issued) => s.(server := WithIssued(v, x, issued))
    case RevokeElsewhere(t) => s.(server := v.(live := v.live[t := false]))
  }

  // ------------------------------------------------------------------ the client protocol

  ghost predicate RequestOk(c: Client, r: Request)
  {
    match r.phase
    case Fetching(isRetry, _) => r.fetches == if isRetry then 2 else 1
    case Waiting(p) => r.fetches == 1 && (p in c.posts || p in c.outcomes)
    case Done => 1 <= r.fetches <= 2
  }

  /**
   * The one running POST is the one `refreshInFlight` names; a waiting request waits for it or has its
   * outcome; a request makes one fetch and at most one retry; the session-expired event has fired once or not.
   */
  ghost predicate ClientOk(c: Client)
  {
    && c.posts.Keys == (if c.refreshInFlight.Some? then {c.refreshInFlight.value} else {})
    && c.posts.Keys !! c.outcomes.Keys
    && c.expiredEvents == (if c.sessionExpiredDispatched then 1 else 0)
    && forall r :: r in c.requests ==> RequestOk(c, c.requests[r])
  }

  lemma StepKeepsClientOk(s: State, step: Step)
    requires ClientOk(s.client) && Enabled(s, step)
    ensures ClientOk(Next(s, step).client)
  {
    var c, c' := s.client, Next(s, step).client;
    forall r | r in c'.requests
      ensures RequestOk(c', c'.requests[r])
    {
      if r in c.requests {
        assert RequestOk(c, c.requests[r]);
      }
    }
  }

  /** An outcome, once there, is the one every request that waits for it will see. */
  lemma OutcomesAreFinal(s: State, step: Step, p: PromiseId)
    requires ClientOk(s.client) && Enabled(s, step) && p in s.client.outcomes
    ensures p in Next(s, step).client.outcomes && Next(s, step).client.outcomes[p] == s.client.outcomes[p]
  {
    hide RequestOk, StartsPost, IsFresh;
  }

  // ------------------------------------------------------------------ whole runs

  predicate IsLive(v: Server, t: Token)
  {
    t in v.live && v.live[t]
  }

  /** A page has just loaded: nothing in flight, and at most one live token. */
  ghost predicate Initial(s: State)
  {
    && s.client.refreshInFlight.None? && s.client.posts == map[] && s.client.outcomes == map[]
    && s.client.requests == map[] && !s.client.sessionExpiredDispatched && s.client.expiredEvents == 0
    && s.server.exchanges == map[]
    && forall t, u :: IsLive(s.server, t) && IsLive(s.server, u) ==> t == u
  }

  ghost predicate Path(states: seq<State>, steps: seq<Step>)
  {
    && |states| == |steps| + 1
    && Initial(states[0])
    && forall n :: 0 <= n < |steps| ==> Enabled(states[n], steps[n]) && states[n + 1] == Next(states[n], steps[n])
  }

  lemma {:induction false} PathKeepsClientOk(states: seq<State>, steps: seq<Step>, n: nat)
    requires Path(states, steps) && n < |states|
    ensures ClientOk(states[n].client)
  {
    if n > 0 {
      PathKeepsClientOk(states, steps, n - 1);
      StepKeepsClientOk(states[n - 1], steps[n - 1]);
      assert states[n - 1 + 1] == Next(states[n - 1], steps[n - 1]);
    }
  }

  /**
   * The client protocol, over every interleaving and every network failure: one refresh POST at most, two
   * fetches per request at most, one session-expired event at most, and no request waits for nothing.
   */
  lemma ClientProtocol(states: seq<State>, steps: seq<Step>, n: nat)
    requires Path(states, steps) && n < |states|
    ensures var c := states[n].client;
            && |c.posts| <= 1
            && (forall r :: r in c.requests ==> c.requests[r].fetches <= 2)
            && c.expiredEvents <= 1
            && (forall r :: r in c.requests && c.requests[r].phase.Waiting? ==>
                  c.requests[r].phase.promise in c.posts || c.requests[r].phase.promise in c.outcomes)
  {
    PathKeepsClientOk(states, steps, n);
    var c := states[n].client;
    assert |c.posts| == |c.posts.Keys|;
    forall r | r in c.requests
      ensures c.requests[r].fetches <= 2
    {
      assert RequestOk(c, c.requests[r]);
    }
  }

  /** Whenever two requests wait for the same refresh, they see the same outcome. */
  lemma {:induction false} SameOutcomeForAll(states: seq<State>, steps: seq<Step>, p: PromiseId, n: nat, m: nat)
    requires Path(states, steps) && n <= m < |states| && p in states[n].client.outcomes
    ensures p in states[m].client.outcomes && states[m].client.outcomes[p] == states[n].client.outcomes[p]
  {
    if n < m {
      SameOutcomeForAll(states, steps, p, n, m - 1);
      PathKeepsClientOk(states, steps, m - 1);
      OutcomesAreFinal(states[m - 1], steps[m - 1], p);
      assert states[m - 1 + 1] == Next(states[m - 1], steps[m - 1]);
    }
  }

  // ------------------------------------------------------------------ what a retry and an expiry mean

  /** An exchange that ended with a new token. */
  ghost predicate Issued(v: Server)
  {
    exists x :: x in v.exchanges && v.exchanges[x].stage.Finished? && v.exchanges[x].stage.issued.Some?
  }

  /** The session has only expired if a refresh failed, and a refresh has only worked if the server issued a token. */
  ghost predicate Honest(s: State)
  {
    && (s.client.expiredEvents > 0 ==> exists p :: p in s.client.outcomes && !s.client.outcomes[p])
    && (forall p :: p in s.client.outcomes && s.client.outcomes[p] ==> Issued(s.server))
    && (forall p :: p in s.client.posts && s.client.posts[p] == Answered(true) ==> Issued(s.server))
  }

  lemma IssuedStays(s: State, step: Step)
    requires Enabled(s, step) && Issued(s.server)
    ensures Issued(Next(s, step).server)
  {
    var x :| x in s.server.exchanges && s.server.exchanges[x].stage.Finished? && s.server.exchanges[x].stage.issued.Some?;
    assert x in Next(s, step).server.exchanges && Next(s, step).server.exchanges[x] == s.server.exchanges[x];
  }

  lemma StepKeepsHonest(s: State, step: Step)
    requires ClientOk(s.client) && Honest(s) && Enabled(s, step)
    ensures Honest(Next(s, step))
  {
    hide ClientOk, Issued;
    var c, c' := s.client, Next(s, step).client;
    if Issued(s.server) {
      IssuedStays(s, step);
    }
    if step.Answer? {
      AnswerIsIssued(s, step.promise);
    }
    if c.expiredEvents > 0 {
      var p :| p in c.outcomes && !c.outcomes[p];
      assert ClientOk(s.client) ==> p in c'.outcomes && !c'.outcomes[p] by {
        if ClientOk(s.client) {
          OutcomesAreFinal(s, step, p);
        }
      }
    } else if step.Resume? && c'.expiredEvents > 0 {
      assert c'.outcomes == c.outcomes && !c.outcomes[c.requests[step.request].phase.promise];
    }
  }

  lemma AnswerIsIssued(s: State, p: PromiseId)
    requires Enabled(s, Answer(p))
    ensures Next(s, Answer(p)).client.posts[p] == Answered(true) ==> Issued(s.server)
  {
    var x := s.client.posts[p].exchange;
    assert x in s.server.exchanges && s.server.exchanges[x].stage.Finished?;
  }

  lemma {:induction false} PathIsHonest(states: seq<State>, steps: seq<Step>, n: nat)
    requires Path(states, steps) && n < |states|
    ensures Honest(states[n])
  {
    hide Honest, Enabled, ClientOk;
    if n > 0 {
      PathIsHonest(states, steps, n - 1);
      PathKeepsClientOk(states, steps, n - 1);
      StepKeepsHonest(states[n - 1], steps[n - 1]);
      assert states[n - 1 + 1] == Next(states[n - 1], steps[n - 1]);
    } else {
      assert Honest(states[0]) by { InitialIsHonest(states[0]); }
    }
  }

  lemma InitialIsHonest(s: State)
    requires Initial(s)
    ensures Honest(s)
  {
  }

  /** Over every interleaving: the session is reported expired only if some refresh has failed. */
  lemma ExpiredOnlyAfterFailure(states: seq<State>, steps: seq<Step>, n: nat)
    requires Path(states, steps) && n < |states| && states[n].client.expiredEvents > 0
    ensures exists p :: p in states[n].client.outcomes && !states[n].client.outcomes[p]
  {
    PathIsHonest(states, steps, n);
  }

  /**
   * And a request is sent a second time only after it waited for a refresh that worked, for which the server had
   * issued a token; then it has been resumed exactly there.
   */
  lemma {:induction false} RetriedOnlyAfterRefresh(states: seq<State>, steps: seq<Step>, n: nat, r: RequestId) returns (k: nat)
    requires Path(states, steps) && n < |states|
    requires r in states[n].client.requests && states[n].client.requests[r].fetches == 2
    ensures k < n && steps[k] == Resume(r) && r in states[k].client.requests && states[k].client.requests[r].phase.Waiting?
    ensures var p := states[k].client.requests[r].phase.promise;
            && p in states[k].client.outcomes && states[k].client.outcomes[p] && Issued(states[k].server)
  {
    hide Issued, Honest, ClientOk, Enabled, Next;
    assert n > 0;
    var s, step := states[n - 1], steps[n - 1];
    assert states[n - 1 + 1] == Next(s, step);
    if r in s.client.requests && s.client.requests[r].fetches == 2 {
      k := RetriedOnlyAfterRefresh(states, steps, n - 1, r);
    } else {
      k := n - 1;
      SecondFetch(s, step, r);
      PathIsHonest(states, steps, k);
      assert Issued(s.server) by {
        HonestOutcome(s, s.client.requests[r].phase.promise);
      }
    }
  }

  /** The step that sends a request a second time. */
  lemma SecondFetch(s: State, step: Step, r: RequestId)
    requires Enabled(s, step) && r in Next(s, step).client.requests && Next(s, step).client.requests[r].fetches == 2
    requires !(r in s.client.requests && s.client.requests[r].fetches == 2)
    ensures step == Resume(r) && r in s.client.requests && s.client.requests[r].phase.Waiting?
    ensures s.client.requests[r].phase.promise in s.client.outcomes && s.client.outcomes[s.client.requests[r].phase.promise]
  {
  }

  lemma HonestOutcome(s: State, p: PromiseId)
    requires Honest(s) && p in s.client.outcomes && s.client.outcomes[p]
    ensures Issued(s.server)
  {
  }
}
