/**
 * The two sides of a refresh as objects whose methods are the steps of `TokenRefresh`. Every turn of the client
 * keeps the client protocol; every database call of the server keeps rotation safe, but for receiving a live
 * token while an earlier exchange may still go through.
 */
module TokenServices {
  import opened Basics
  import opened TokenRefresh
  import opened TokenRotation

  // ------------------------------------------------------------------ the client module

  ghost predicate OnlyRequestsChange(c: Client, c': Client)
  {
    c' == c.(requests := c'.requests)
  }

  /** The module variables of the API client; each method is one turn of JavaScript. */
  class ApiClient {
    var refreshInFlight: Option<PromiseId>
    var posts: map<PromiseId, Post>
    var outcomes: map<PromiseId, bool>
    var sessionExpiredDispatched: bool
    var expiredEvents: nat
    var requests: map<RequestId, Request>
    var cookie: Option<Token>

    ghost function View(): Client
      reads this
    {
      Client(refreshInFlight, posts, outcomes, sessionExpiredDispatched, expiredEvents, requests, cookie)
    }

    ghost predicate Valid()
      reads this
    {
      ClientOk(View())
    }

    constructor (cookie: Option<Token>)
      ensures Valid() && View() == Client(None, map[], map[], false, 0, map[], cookie)
    {
      refreshInFlight, posts, outcomes := None, map[], map[];
      sessionExpiredDispatched, expiredEvents, requests := false, 0, map[];
      this.cookie := cookie;
    }

    /** `request` up to its first await. */
    method Begin(r: RequestId, mayRefresh: bool)
      requires Valid() && r !in requests
      modifies this
      ensures Valid() && View() == Started(old(View()), r, mayRefresh)
      ensures requests == old(requests)[r := Request(Fetching(false, mayRefresh), 1)] && OnlyRequestsChange(old(View()), View())
    {
      requests := requests[r := Request(Fetching(false, mayRefresh), 1)];
      KeptOthers(old(View()), View(), r);
    }

    /** `tryRefreshToken`: the promise already in flight, or a new one with its own POST; never a second POST. */
    method TryRefreshToken(p: PromiseId, x: ExchangeId) returns (promise: PromiseId)
      requires Valid() && p !in posts && p !in outcomes
      modifies this
      ensures Valid() && posts.Keys == {promise} && refreshInFlight == Some(promise)
      ensures promise == (if old(refreshInFlight).Some? then old(refreshInFlight).value else p)
      ensures View() == if old(refreshInFlight).Some? then old(View())
                        else old(View()).(refreshInFlight := Some(p), posts := old(posts)[p := Sent(x)])
    {
      if refreshInFlight.Some? {
        return refreshInFlight.value;
      }
      refreshInFlight := Some(p);
      posts := posts[p := Sent(x)];
      promise := p;
    }

    /**
     * The response of a fetch. A first attempt that is answered 401, outside the authentication endpoints, waits for
     * the refresh in flight, or for a new one; anything else ends the request.
     */
    method OnResponse(r: RequestId, unauthorized: bool, p: PromiseId, x: ExchangeId)
      requires Valid() && r in requests && requests[r].phase.Fetching? && p !in posts && p !in outcomes
      modifies this
      ensures Valid() && View() == Responded(old(View()), r, unauthorized, p, x)
      ensures var before, after := old(requests)[r], requests[r];
              && View() == old(View()).(requests := old(requests)[r := after], refreshInFlight := refreshInFlight, posts := posts)
              && after.fetches == before.fetches
              && (if unauthorized && before.phase == Fetching(false, true)
                  then after.phase.Waiting? && after.fetches == 1 && posts.Keys == {after.phase.promise}
                       && after.phase.promise == (if old(refreshInFlight).Some? then old(refreshInFlight).value else p)
                       && (old(refreshInFlight).None? ==> posts[p] == Sent(x))
                  else after.phase.Done? && OnlyRequestsChange(old(View()), View()))
    {
      assert RequestOk(View(), requests[r]);
      var request := requests[r];
      if unauthorized && !request.phase.isRetry && request.phase.mayRefresh {
        var promise := TryRefreshToken(p, x);
        requests := requests[r := request.(phase := Waiting(promise))];
      } else {
        requests := requests[r := request.(phase := Done)];
      }
      KeptOthers(old(View()), View(), r);
    }

    /** The refresh POST is answered, with a new cookie or with an error; or it fails. */
    method OnAnswer(p: PromiseId, issued: Option<Token>)
      requires Valid() && p in posts && posts[p].Sent?
      modifies this
      ensures Valid() && View() == WithAnswer(old(View()), p, issued)
      ensures posts == old(posts)[p := Answered(issued.Some?)] && View() == old(View()).(posts := posts, cookie := cookie)
      ensures cookie == if issued.Some? then issued else old(cookie)
    {
      posts := posts[p := Answered(issued.Some?)];
      if issued.Some? {
        cookie := issued;
      }
      SameRequests(old(View()), View());
    }

    /**
     * The `finally` of `tryRefreshToken`: nothing is in flight any more, and whoever waits for the promise, and
     * nobody else, has an outcome it did not have before.
     */
    method OnRefreshDone(p: PromiseId, ok: bool)
      requires Valid() && p in posts && posts[p].Answered? && (ok ==> posts[p].ok)
      modifies this
      ensures Valid() && View() == WithoutPost(old(View()), p, ok)
      ensures posts == map[] && refreshInFlight.None? && p !in old(outcomes) && outcomes == old(outcomes)[p := ok]
      ensures View() == old(View()).(refreshInFlight := None, posts := map[], outcomes := outcomes)
      ensures forall r :: r in requests && requests[r].phase.Waiting? ==>
                requests[r].phase.promise in outcomes
                && (requests[r].phase.promise !in old(outcomes) ==> outcomes[requests[r].phase.promise] == ok)
    {
      posts := posts - {p};
      refreshInFlight := None;
      outcomes := outcomes[p := ok];
      SameRequests(old(View()), View());
      forall r | r in requests && requests[r].phase.Waiting?
        ensures requests[r].phase.promise in outcomes
      {
        assert RequestOk(View(), requests[r]);
      }
    }

    /** However often it is called, the session-expired event has then fired exactly once. */
    method HandleSessionExpired()
      requires Valid()
      modifies this
      ensures Valid() && View() == Expired(old(View()))
      ensures View() == old(View()).(sessionExpiredDispatched := true, expiredEvents := 1)
    {
      if sessionExpiredDispatched {
        return;
      }
      sessionExpiredDispatched := true;
      expiredEvents := expiredEvents + 1;
      SameRequests(old(View()), View());
    }

    /**
     * A request that awaited the refresh goes on: after a refresh that worked it is sent once more, and the session
     * goes on; after one that failed it is over, and so is the session.
     */
    method OnRefreshed(r: RequestId)
      requires Valid() && r in requests && requests[r].phase.Waiting? && requests[r].phase.promise in outcomes
      modifies this
      ensures Valid() && View() == Resumed(old(View()), r)
      ensures var before, after := old(requests)[r], requests[r];
              && requests == old(requests)[r := after]
              && (if old(outcomes)[before.phase.promise]
                  then after == Request(Fetching(true, true), before.fetches + 1) && after.fetches == 2
                       && OnlyRequestsChange(old(View()), View())
                  else after == Request(Done, before.fetches)
                       && View() == old(View()).(requests := requests, sessionExpiredDispatched := true, expiredEvents := 1))
    {
      assert RequestOk(View(), requests[r]);
      var request := requests[r];
      if outcomes[request.phase.promise] {
        requests := requests[r := Request(Fetching(true, true), request.fetches + 1)];
      } else {
        HandleSessionExpired();
        requests := requests[r := request.(phase := Done)];
      }
      KeptOthers(old(View()), View(), r);
    }
  }

  /** One request moved on, and no promise was forgotten. */
  lemma KeptOthers(c: Client, c': Client, r: RequestId)
    requires ClientOk(c) && r in c'.requests && RequestOk(c', c'.requests[r])
    requires c.posts.Keys + c.outcomes.Keys <= c'.posts.Keys + c'.outcomes.Keys
    requires forall q :: q in c'.requests && q != r ==> q in c.requests && c'.requests[q] == c.requests[q]
    ensures forall q :: q in c'.requests ==> RequestOk(c', c'.requests[q])
  {
    forall q | q in c'.requests
      ensures RequestOk(c', c'.requests[q])
    {
      assert q != r ==> RequestOk(c, c.requests[q]);
    }
  }

  lemma SameRequests(c: Client, c': Client)
    requires ClientOk(c) && c'.requests == c.requests
    requires c.posts.Keys + c.outcomes.Keys <= c'.posts.Keys + c'.outcomes.Keys
    ensures forall q :: q in c'.requests ==> RequestOk(c', c'.requests[q])
  {
    forall q | q in c'.requests
      ensures RequestOk(c', c'.requests[q])
    {
      assert RequestOk(c, c.requests[q]);
    }
  }

  // ------------------------------------------------------------------ the server

  /** The refresh-token table and the requests being handled; each method is one database call. */
  class AuthServer {
    var live: map<Token, bool>
    var exchanges: map<ExchangeId, Exchange>

    ghost function View(): Server
      reads this
    {
      Server(live, exchanges)
    }

    constructor (live: map<Token, bool>)
      ensures View() == Server(live, map[])
      ensures (forall t, u :: IsLive(View(), t) && IsLive(View(), u) ==> t == u) ==> RotationOk(View())
    {
      this.live, exchanges := live, map[];
    }

    /** A refresh request arrives, with the cookie it carries. */
    method ReceiveRefresh(x: ExchangeId, token: Option<Token>)
      requires x !in exchanges
      modifies this
      ensures View() == WithExchange(old(View()), x, token)
      ensures exchanges == old(exchanges)[x := Exchange(token, Received)] && live == old(live)
      ensures RotationOk(old(View())) && (token.Some? && IsLive(old(View()), token.value) ==> !Busy(old(View())))
          ==> RotationOk(View())
    {
      hide RotationOk, Busy, IsLive;
      if RotationOk(View()) && (token.Some? && IsLive(View(), token.value) ==> !Busy(View())) {
        SendKeepsRotation(View(), x, token);
      }
      exchanges := exchanges[x := Exchange(token, Received)];
    }

    /** The checks of `refresh`; `accepted` stands for expiry, signature and the account lookup. */
    method FindRefreshToken(x: ExchangeId, accepted: bool) returns (passes: bool)
      requires x in exchanges && exchanges[x].stage.Received?
      modifies this
      ensures passes <==> accepted && old(exchanges)[x].token.Some? && IsLive(old(View()), old(exchanges)[x].token.value)
      ensures View() == WithStage(old(View()), x, if passes then Checked else Finished(None))
      ensures live == old(live)
      ensures exchanges == old(exchanges)[x := Exchange(old(exchanges)[x].token, if passes then Checked else Finished(None))]
      ensures RotationOk(old(View())) ==> RotationOk(View())
    {
      hide RotationOk;
      var exchange := exchanges[x];
      passes := accepted && exchange.token.Some? && exchange.token.value in live && live[exchange.token.value];
      if RotationOk(View()) {
        CheckKeepsRotation(View(), x, passes);
      }
      exchanges := exchanges[x := exchange.(stage := if passes then Checked else Finished(None))];
    }

    /** Then no token is live, if rotation was in order: the one revoked was the only one. */
    method RevokeRefreshToken(x: ExchangeId)
      requires x in exchanges && exchanges[x].stage.Checked? && exchanges[x].token.Some?
      modifies this
      ensures View() == WithRevoked(old(View()), x) && live == old(live)[old(exchanges)[x].token.value := false]
      ensures exchanges == old(exchanges)[x := Exchange(old(exchanges)[x].token, Revoked)]
      ensures RotationOk(old(View())) ==> RotationOk(View()) && forall t :: !IsLive(View(), t)
    {
      var exchange := exchanges[x];
      if RotationOk(View()) {
        RevokeKeepsRotation(View(), x);
        NoneLiveWhileRevoked(WithRevoked(View(), x), x);
      }
      hide RotationOk, WithRevoked;
      live := live[exchange.token.value := false];
      exchanges := exchanges[x := exchange.(stage := Revoked)];
      assert View() == WithRevoked(old(View()), x) by {
        RevokedView(old(View()), x);
      }
    }

    /** `createAuthSession`: a new token, the only live one, unless the account or its company may not log in. */
    method CreateAuthSession(x: ExchangeId, newToken: Token, mayLogIn: bool) returns (issued: Option<Token>)
      requires x in exchanges && exchanges[x].stage.Revoked? && IsFresh(View(), newToken)
      modifies this
      ensures issued == (if mayLogIn then Some(newToken) else None)
      ensures View() == WithIssued(old(View()), x, issued)
      ensures live == (if mayLogIn then old(live)[newToken := true] else old(live))
      ensures exchanges == old(exchanges)[x := Exchange(old(exchanges)[x].token, Finished(issued))]
      ensures RotationOk(old(View())) ==> RotationOk(View()) && forall t: Token :: IsLive(View(), t) <==> issued == Some(t)
    {
      issued := if mayLogIn then Some(newToken) else None;
      if RotationOk(View()) {
        CreateKeepsRotation(View(), x, issued);
        NoneLiveWhileRevoked(View(), x);
        OnlyIssuedIsLive(View(), x, issued);
      }
      hide RotationOk, IsLive;
      if mayLogIn {
        live := live[newToken := true];
      }
      exchanges := exchanges[x := exchanges[x].(stage := Finished(issued))];
    }

    /** The token can not be exchanged any more unless it has passed its check; rotation stays in order. */
    method Logout(t: Token)
      requires t in live
      modifies this
      ensures live == old(live)[t := false] && exchanges == old(exchanges)
      ensures forall x :: At(View(), x) && CanPass(View(), View().exchanges[x]) && View().exchanges[x].token == Some(t)
                          ==> View().exchanges[x].stage.Checked?
      ensures RotationOk(old(View())) ==> RotationOk(View())
    {
      hide RotationOk;
      if RotationOk(View()) {
        RevokeElsewhereKeepsRotation(View(), t);
      }
      live := live[t := false];
    }
  }

  lemma NoneLiveWhileRevoked(v: Server, x: ExchangeId)
    requires RotationOk(v) && At(v, x) && v.exchanges[x].stage.Revoked?
    ensures forall t :: !IsLive(v, t)
  {
  }

  lemma OnlyIssuedIsLive(v: Server, x: ExchangeId, issued: Option<Token>)
    requires At(v, x) && forall t :: !IsLive(v, t)
    ensures forall t: Token :: IsLive(WithIssued(v, x, issued), t) <==> issued == Some(t)
  {
    forall t: Token
      ensures IsLive(WithIssued(v, x, issued), t) <==> issued == Some(t)
    {
      assert !IsLive(v, t);
    }
  }

  lemma RevokedView(v: Server, x: ExchangeId)
    requires At(v, x) && v.exchanges[x].token.Some?
    ensures WithRevoked(v, x) == Server(v.live[v.exchanges[x].token.value := false],
                                        v.exchanges[x := v.exchanges[x].(stage := Revoked)])
  {
  }
}
