/**
 * What publishing comes to, call by call, said without following how the bus goes about it: which calls there
 * are, counted, and in which order an event's own subscribers are called.
 */
module CallFlow {
  import opened Handlers

  /** One call for every subscriber of the event. */
  function Fan(bus: Bus, e: Event): seq<Call>
  {
    if e.name in bus.listeners then CallsOf(bus.listeners[e.name], e) else []
  }

  function CallsOf(hs: seq<HandlerId>, e: Event): seq<Call>
  {
    seq(|hs|, i requires 0 <= i < |hs| => Call(hs[i], e))
  }

  function Fans(bus: Bus, es: seq<Event>): multiset<Call>
  {
    if es == [] then multiset{} else multiset(Fan(bus, es[0])) + Fans(bus, es[1..])
  }

  function StretchFans(bus: Bus, stretches: seq<seq<Event>>): multiset<Call>
  {
    if stretches == [] then multiset{} else Fans(bus, stretches[0]) + StretchFans(bus, stretches[1..])
  }

  /** What the handler of a call publishes before it returns, or throws, or first awaits. */
  function AtOnce(bus: Bus, c: Call): seq<Event>
  {
    match bus.behave(c.handler, c.event)
    case Sync(es, _) => es
    case Async(first, _, _) => first
  }

  /** And in the stretches after that, which a promise stands for. */
  function Afterwards(bus: Bus, c: Call): seq<seq<Event>>
  {
    match bus.behave(c.handler, c.event)
    case Sync(_, _) => []
    case Async(_, later, _) => later
  }

  /** One call for every subscriber of everything that these calls publish at once. */
  function CausedAtOnce(bus: Bus, cs: seq<Call>): multiset<Call>
  {
    if cs == [] then multiset{} else Fans(bus, AtOnce(bus, cs[0])) + CausedAtOnce(bus, cs[1..])
  }

  function CausedLater(bus: Bus, cs: seq<Call>): multiset<Call>
  {
    if cs == [] then multiset{} else StretchFans(bus, Afterwards(bus, cs[0])) + CausedLater(bus, cs[1..])
  }

  /** One promise for every call of an asynchronous handler, with what the handler has still to run. */
  function PromisesOf(bus: Bus, cs: seq<Call>): multiset<Task>
  {
    if cs == [] then multiset{}
    else
      (match bus.behave(cs[0].handler, cs[0].event)
       case Sync(_, _) => multiset{}
       case Async(_, later, _) => multiset{Task(later, cs[0].event)})
      + PromisesOf(bus, cs[1..])
  }

  function TaskFans(bus: Bus, ts: seq<Task>): multiset<Call>
  {
    if ts == [] then multiset{} else StretchFans(bus, ts[0].rest) + TaskFans(bus, ts[1..])
  }

  /** Among `cs` there is one call of each of these handlers, one after the other. */
  ghost predicate CalledInOrder(cs: seq<Call>, hs: seq<HandlerId>, e: Event, at: seq<nat>)
  {
    && |at| == |hs|
    && (forall i, j :: 0 <= i < j < |at| ==> at[i] < at[j])
    && forall i :: 0 <= i < |at| ==> at[i] < |cs| && cs[at[i]] == Call(hs[i], e)
  }

  /** Whatever one of these calls publishes at once, each of its subscribers is among them. */
  ghost predicate ClosedAtOnce(bus: Bus, cs: seq<Call>)
  {
    forall c, e, h :: c in cs && e in AtOnce(bus, c) && e.name in bus.listeners && h in bus.listeners[e.name] ==> Call(h, e) in cs
  }

  ghost predicate ClosedLater(bus: Bus, cs: seq<Call>)
  {
    forall c, es, e, h :: c in cs && es in Afterwards(bus, c) && e in es && e.name in bus.listeners && h in bus.listeners[e.name]
                          ==> Call(h, e) in cs
  }

  // ------------------------------------------------------------------ sums over parts

  lemma {:induction false} CausedAppend(bus: Bus, a: seq<Call>, b: seq<Call>)
    ensures CausedAtOnce(bus, a + b) == CausedAtOnce(bus, a) + CausedAtOnce(bus, b)
    ensures CausedLater(bus, a + b) == CausedLater(bus, a) + CausedLater(bus, b)
    ensures PromisesOf(bus, a + b) == PromisesOf(bus, a) + PromisesOf(bus, b)
  {
    hide Fans, StretchFans, AtOnce, Afterwards;
    if a == [] {
      assert a + b == b;
    } else {
      assert (a + b)[1..] == a[1..] + b;
      CausedAppend(bus, a[1..], b);
    }
  }

  lemma {:induction false} TaskFansAppend(bus: Bus, a: seq<Task>, b: seq<Task>)
    ensures TaskFans(bus, a + b) == TaskFans(bus, a) + TaskFans(bus, b)
  {
    if a == [] {
      assert a + b == b;
    } else {
      assert (a + b)[1..] == a[1..] + b;
      TaskFansAppend(bus, a[1..], b);
    }
  }

  // ------------------------------------------------------------------ the law for what is done at once

  /**
   * The calls made and the promises left by publishing some events: as many calls as subscribers, of those events
   * and of all that the calls themselves publish at once, and a promise for each asynchronous one of them.
   */
  ghost predicate Flows(bus: Bus, caused: multiset<Call>, cs: seq<Call>, ts: seq<Task>)
  {
    && multiset(cs) == caused + CausedAtOnce(bus, cs)
    && TaskFans(bus, ts) == CausedLater(bus, cs)
    && multiset(ts) == PromisesOf(bus, cs)
  }

  lemma FlowsAppend(bus: Bus, p: multiset<Call>, a: seq<Call>, s: seq<Task>, q: multiset<Call>, b: seq<Call>, t: seq<Task>)
    requires Flows(bus, p, a, s) && Flows(bus, q, b, t)
    ensures Flows(bus, p + q, a + b, s + t)
  {
    CausedAppend(bus, a, b);
    TaskFansAppend(bus, s, t);
  }

  lemma {:induction false} PublishingFlows(bus: Bus, rank: Rank, es: seq<Event>, bound: nat)
    requires Ranked(bus, rank) && Below(rank, es, bound)
    ensures Flows(bus, Fans(bus, es), CallsNow(bus, rank, es, bound), TasksLeft(bus, rank, es, bound))
    decreases bound, 0, |es|
  {
    hide HandlerCallsNow, HandlerTasksLeft;
    if es != [] {
      hide Flows;
      HandlingFlows(bus, rank, es[0], HandlersOf(bus, es[0]));
      PublishingFlows(bus, rank, es[1..], bound);
      FlowsAppend(bus, multiset(Fan(bus, es[0])), HandlerCallsNow(bus, rank, es[0], HandlersOf(bus, es[0])),
                  HandlerTasksLeft(bus, rank, es[0], HandlersOf(bus, es[0])),
                  Fans(bus, es[1..]), CallsNow(bus, rank, es[1..], bound), TasksLeft(bus, rank, es[1..], bound));
    }
  }

  lemma NoCalls(e: Event)
    ensures CallsOf([], e) == []
  {
  }

  lemma CallsOfFirst(hs: seq<HandlerId>, e: Event)
    requires hs != []
    ensures multiset(CallsOf(hs, e)) == multiset{Call(hs[0], e)} + multiset(CallsOf(hs[1..], e))
  {
    assert CallsOf(hs, e) == [Call(hs[0], e)] + CallsOf(hs[1..], e);
  }

  lemma {:induction false} HandlingFlows(bus: Bus, rank: Rank, e: Event, hs: seq<HandlerId>)
    requires Ranked(bus, rank)
    ensures Flows(bus, multiset(CallsOf(hs, e)), HandlerCallsNow(bus, rank, e, hs), HandlerTasksLeft(bus, rank, e, hs))
    decreases rank(e), 3, |hs|
  {
    hide ScriptCallsNow, ScriptTasksLeft, CallsOf, ScriptBelow;
    if hs == [] {
      NoCalls(e);
    } else {
      hide Flows;
      var s := bus.behave(hs[0], e);
      assert ScriptBelow(rank, s, rank(e));
      ScriptFlows(bus, rank, hs[0], e);
      HandlingFlows(bus, rank, e, hs[1..]);
      FlowsAppend(bus, multiset{Call(hs[0], e)}, ScriptCallsNow(bus, rank, hs[0], s, e), ScriptTasksLeft(bus, rank, s, e),
                  multiset(CallsOf(hs[1..], e)), HandlerCallsNow(bus, rank, e, hs[1..]), HandlerTasksLeft(bus, rank, e, hs[1..]));
      CallsOfFirst(hs, e);
    }
  }

  function OwnPromise(bus: Bus, c: Call): seq<Task>
  {
    var s := bus.behave(c.handler, c.event);
    if s.Async? then [Task(s.later, c.event)] else []
  }

  lemma OneCall(bus: Bus, c: Call)
    ensures CausedAtOnce(bus, [c]) == Fans(bus, AtOnce(bus, c)) && CausedLater(bus, [c]) == StretchFans(bus, Afterwards(bus, c))
    ensures PromisesOf(bus, [c]) == multiset(OwnPromise(bus, c))
    ensures TaskFans(bus, OwnPromise(bus, c)) == StretchFans(bus, Afterwards(bus, c))
  {
    assert [c][1..] == [];
    var s := bus.behave(c.handler, c.event);
    assert s.Async? ==> [Task(s.later, c.event)][1..] == [];
  }

  /** A call in front of what it publishes at once, and its own promise behind the promises that leaves. */
  lemma FlowsWithCall(bus: Bus, c: Call, cs: seq<Call>, ts: seq<Task>)
    requires Flows(bus, Fans(bus, AtOnce(bus, c)), cs, ts)
    ensures Flows(bus, multiset{c}, [c] + cs, ts + OwnPromise(bus, c))
  {
    hide Fans, StretchFans, CausedAtOnce, CausedLater, PromisesOf, TaskFans, OwnPromise, AtOnce, Afterwards;
    OneCall(bus, c);
    CausedAppend(bus, [c], cs);
    TaskFansAppend(bus, ts, OwnPromise(bus, c));
    assert multiset([c] + cs) == multiset{c} + multiset(cs);
    assert CausedAtOnce(bus, [c] + cs) == multiset(cs);
    assert multiset(ts + OwnPromise(bus, c)) == multiset(ts) + multiset(OwnPromise(bus, c));
  }

  lemma {:induction false} ScriptFlows(bus: Bus, rank: Rank, h: HandlerId, e: Event)
    requires Ranked(bus, rank) && ScriptBelow(rank, bus.behave(h, e), rank(e))
    ensures var s := bus.behave(h, e);
            Flows(bus, multiset{Call(h, e)}, ScriptCallsNow(bus, rank, h, s, e), ScriptTasksLeft(bus, rank, s, e))
    decreases rank(e), 2, 0
  {
    hide CallsNow, TasksLeft, Flows, Fans;
    var first := FirstStretch(bus.behave(h, e));
    PublishingFlows(bus, rank, first, rank(e));
    FlowsWithCall(bus, Call(h, e), CallsNow(bus, rank, first, rank(e)), TasksLeft(bus, rank, first, rank(e)));
  }

  lemma InOrderAfter(first: seq<Call>, rest: seq<Call>, hs: seq<HandlerId>, e: Event, later: seq<nat>) returns (at: seq<nat>)
    requires hs != [] && first != [] && first[0] == Call(hs[0], e) && CalledInOrder(rest, hs[1..], e, later)
    ensures CalledInOrder(first + rest, hs, e, at)
  {
    at := [0] + seq(|later|, i requires 0 <= i < |later| => |first| + later[i]);
    forall i | 0 <= i < |at|
      ensures at[i] < |first + rest| && (first + rest)[at[i]] == Call(hs[i], e)
    {
      if i > 0 {
        assert rest[later[i - 1]] == Call(hs[1..][i - 1], e);
      }
    }
  }

  /** The subscribers of an event are called in the order in which they subscribed. */
  lemma {:induction false} HandlersInOrder(bus: Bus, rank: Rank, e: Event, hs: seq<HandlerId>) returns (at: seq<nat>)
    requires Ranked(bus, rank)
    ensures CalledInOrder(HandlerCallsNow(bus, rank, e, hs), hs, e, at)
  {
    hide ScriptBelow, CallsNow, CalledInOrder;
    if hs == [] {
      at := [];
      assert CalledInOrder([], [], e, at) by { NothingInOrder(e); }
    } else {
      var s := bus.behave(hs[0], e);
      assert ScriptBelow(rank, s, rank(e));
      var later := HandlersInOrder(bus, rank, e, hs[1..]);
      at := InOrderAfter(ScriptCallsNow(bus, rank, hs[0], s, e), HandlerCallsNow(bus, rank, e, hs[1..]), hs, e, later);
    }
  }

  lemma NothingInOrder(e: Event)
    ensures CalledInOrder([], [], e, [])
  {
  }

  // ------------------------------------------------------------------ the law for what promises do later

  /**
   * From promises, and events, that had `before` to cause: the calls made and what is still to come, together, are
   * that and everything the calls themselves publish, at once or later.
   */
  ghost predicate Drains(bus: Bus, before: multiset<Call>, cs: seq<Call>, ts: seq<Task>)
  {
    multiset(cs) + TaskFans(bus, ts) == before + CausedAtOnce(bus, cs) + CausedLater(bus, cs)
  }

  lemma Balance<T>(a: multiset<T>, t: multiset<T>, p: multiset<T>, q: multiset<T>, b: multiset<T>, u: multiset<T>, c: multiset<T>,
                   r: multiset<T>)
    requires a + t == p + q && b + u == t + c + r
    ensures a + b + u == p + c + q + r
  {
    forall x
      ensures (a + b + u)[x] == (p + c + q + r)[x]
    {
      assert (a + t)[x] == (p + q)[x] && (b + u)[x] == (t + c + r)[x];
    }
  }

  lemma DrainsOn(bus: Bus, before: multiset<Call>, a: seq<Call>, ts: seq<Task>, came: multiset<Call>, b: seq<Call>, us: seq<Task>)
    requires Drains(bus, before, a, ts) && Drains(bus, TaskFans(bus, ts) + came, b, us)
    ensures Drains(bus, before + came, a + b, us)
  {
    hide TaskFans, CausedAtOnce, CausedLater;
    CausedAppend(bus, a, b);
    assert multiset(a + b) == multiset(a) + multiset(b);
    Balance(multiset(a), TaskFans(bus, ts), before, CausedAtOnce(bus, a) + CausedLater(bus, a), multiset(b), TaskFans(bus, us),
            came, CausedAtOnce(bus, b) + CausedLater(bus, b));
    Shuffle(before + came, CausedAtOnce(bus, a), CausedLater(bus, a), CausedAtOnce(bus, b), CausedLater(bus, b));
  }

  lemma Shuffle<T>(p: multiset<T>, q: multiset<T>, r: multiset<T>, s: multiset<T>, t: multiset<T>)
    ensures p + (q + r) + (s + t) == p + (q + s) + (r + t)
  {
  }

  lemma FansAfterStretch(bus: Bus, ts: seq<Task>, k: nat, after: Task, left: seq<Task>)
    requires k < |ts|
    ensures TaskFans(bus, (ts + left)[k := after])
         == TaskFans(bus, ts[..k] + ts[k + 1..]) + StretchFans(bus, after.rest) + TaskFans(bus, left)
  {
    hide TaskFans, StretchFans;
    TaskFansSplit(bus, ts[k := after], k);
    assert ts[k := after][..k] == ts[..k] && ts[k := after][k + 1..] == ts[k + 1..];
    TaskFansAppend(bus, ts[k := after], left);
    assert (ts + left)[k := after] == ts[k := after] + left;
  }

  /** One promise more has run its next stretch. */
  lemma StretchDrains(bus: Bus, ts: seq<Task>, k: nat, cs: seq<Call>, left: seq<Task>)
    requires k < |ts| && ts[k].rest != [] && Flows(bus, Fans(bus, ts[k].rest[0]), cs, left)
    ensures Drains(bus, TaskFans(bus, ts), cs, (ts + left)[k := Task(ts[k].rest[1..], ts[k].event)])
  {
    hide TaskFans, Fans, StretchFans, CausedAtOnce, CausedLater;
    var after := Task(ts[k].rest[1..], ts[k].event);
    var f, s, o := Fans(bus, ts[k].rest[0]), StretchFans(bus, after.rest), TaskFans(bus, ts[..k] + ts[k + 1..]);
    var whole, now := TaskFans(bus, ts), TaskFans(bus, (ts + left)[k := after]);
    assert whole == o + (f + s) by {
      TaskFansSplit(bus, ts, k);
      FirstStretchFans(bus, ts[k].rest);
    }
    assert now == o + s + TaskFans(bus, left) by {
      FansAfterStretch(bus, ts, k, after, left);
    }
    StretchBalance(whole, now, multiset(cs), f, CausedAtOnce(bus, cs), o, s, CausedLater(bus, cs));
  }

  lemma FirstStretchFans(bus: Bus, stretches: seq<seq<Event>>)
    requires stretches != []
    ensures StretchFans(bus, stretches) == Fans(bus, stretches[0]) + StretchFans(bus, stretches[1..])
  {
  }

  lemma StretchBalance<T>(whole: multiset<T>, now: multiset<T>, made: multiset<T>, f: multiset<T>, c: multiset<T>,
                          o: multiset<T>, s: multiset<T>, l: multiset<T>)
    requires made == f + c && whole == o + (f + s) && now == o + s + l
    ensures made + now == whole + c + l
  {
  }

  lemma {:induction false} TaskFansSplit(bus: Bus, ts: seq<Task>, k: nat)
    requires k < |ts|
    ensures TaskFans(bus, ts) == TaskFans(bus, ts[..k] + ts[k + 1..]) + StretchFans(bus, ts[k].rest)
  {
    hide TaskFans, StretchFans;
    var a, t, b := ts[..k], [ts[k]], ts[k + 1..];
    assert TaskFans(bus, ts) == TaskFans(bus, a) + TaskFans(bus, t) + TaskFans(bus, b) by {
      TaskFansAppend(bus, a + t, b);
      TaskFansAppend(bus, a, t);
      assert ts == a + t + b;
    }
    TaskFansAppend(bus, a, b);
    OneTaskFans(bus, ts[k]);
  }

  lemma OneTaskFans(bus: Bus, t: Task)
    ensures TaskFans(bus, [t]) == StretchFans(bus, t.rest)
  {
    assert [t][1..] == [];
  }

  lemma NothingDrained(bus: Bus, ts: seq<Task>)
    ensures Drains(bus, TaskFans(bus, ts), [], ts)
  {
  }

  lemma OneEvent(bus: Bus, e: Event)
    ensures Fans(bus, [e]) == multiset(Fan(bus, e))
  {
    assert [e][1..] == [];
  }

  lemma SumAssociates<T>(a: multiset<T>, b: multiset<T>, c: multiset<T>)
    ensures a + b + c == a + (b + c)
  {
  }

  /** An event comes in while promises are out. */
  lemma PublishDrains(bus: Bus, ts: seq<Task>, e: Event, cs: seq<Call>, left: seq<Task>)
    requires Flows(bus, multiset(Fan(bus, e)), cs, left)
    ensures Drains(bus, TaskFans(bus, ts) + multiset(Fan(bus, e)), cs, ts + left)
  {
    TaskFansAppend(bus, ts, left);
    hide TaskFans, Fan, CausedAtOnce, CausedLater;
  }

  lemma {:induction false} FansAppend(bus: Bus, a: seq<Event>, b: seq<Event>)
    ensures Fans(bus, a + b) == Fans(bus, a) + Fans(bus, b)
  {
    if a == [] {
      assert a + b == b;
    } else {
      assert (a + b)[1..] == a[1..] + b;
      FansAppend(bus, a[1..], b);
    }
  }

  // ------------------------------------------------------------------ what follows from a law of this form

  lemma {:induction false} FanHas(bus: Bus, es: seq<Event>, e: Event, h: HandlerId)
    requires e in es && e.name in bus.listeners && h in bus.listeners[e.name]
    ensures Call(h, e) in Fans(bus, es)
  {
    if es[0] == e {
      var i :| 0 <= i < |bus.listeners[e.name]| && bus.listeners[e.name][i] == h;
      assert Fan(bus, e)[i] == Call(h, e);
    } else {
      FanHas(bus, es[1..], e, h);
    }
  }

  lemma {:induction false} StretchFanHas(bus: Bus, stretches: seq<seq<Event>>, es: seq<Event>, e: Event, h: HandlerId)
    requires es in stretches && e in es && e.name in bus.listeners && h in bus.listeners[e.name]
    ensures Call(h, e) in StretchFans(bus, stretches)
  {
    if stretches[0] == es {
      FanHas(bus, es, e, h);
    } else {
      StretchFanHas(bus, stretches[1..], es, e, h);
    }
  }

  lemma {:induction false} CausedHas(bus: Bus, cs: seq<Call>, c: Call)
    requires c in cs
    ensures Fans(bus, AtOnce(bus, c)) <= CausedAtOnce(bus, cs) && StretchFans(bus, Afterwards(bus, c)) <= CausedLater(bus, cs)
  {
    if cs[0] != c {
      CausedHas(bus, cs[1..], c);
    }
  }

  /** Calls that number no fewer than what they cause are closed under it. */
  lemma CausedIsClosed(bus: Bus, cs: seq<Call>)
    ensures CausedAtOnce(bus, cs) <= multiset(cs) ==> ClosedAtOnce(bus, cs)
    ensures CausedLater(bus, cs) <= multiset(cs) ==> ClosedLater(bus, cs)
  {
    if CausedAtOnce(bus, cs) <= multiset(cs) {
      forall c, e, h | c in cs && e in AtOnce(bus, c) && e.name in bus.listeners && h in bus.listeners[e.name]
        ensures Call(h, e) in cs
      {
        CausedHas(bus, cs, c);
        FanHas(bus, AtOnce(bus, c), e, h);
        assert Call(h, e) in multiset(cs);
      }
    }
    if CausedLater(bus, cs) <= multiset(cs) {
      forall c, es, e, h | c in cs && es in Afterwards(bus, c) && e in es && e.name in bus.listeners && h in bus.listeners[e.name]
        ensures Call(h, e) in cs
      {
        CausedHas(bus, cs, c);
        StretchFanHas(bus, Afterwards(bus, c), es, e, h);
        assert Call(h, e) in multiset(cs);
      }
    }
  }
}
