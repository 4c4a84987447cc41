/**
 * The in-process event bus: `publish` calls every handler of an event one after the other, handlers publish
 * further events, and `allSettled` waits for the ones that went on asynchronously.
 *
 * One run of a handler is described by what it publishes: a synchronous handler in one stretch, an
 * asynchronous one in the stretches between its awaits, the first of which runs before it returns its promise.
 */
module Handlers {
  type HandlerId = nat

  datatype Event = Event(name: string, payload: string)

  datatype Script =
    | Sync(publishes: seq<Event>, throws: bool)
    | Async(first: seq<Event>, later: seq<seq<Event>>, rejects: bool)

  /** Who listens, in subscription order, and what a handler does when it is given an event. */
  datatype Bus = Bus(listeners: map<string, seq<HandlerId>>, behave: (HandlerId, Event) -> Script)

  function HandlersOf(bus: Bus, e: Event): seq<HandlerId>
  {
    if e.name in bus.listeners then bus.listeners[e.name] else []
  }

  type Rank = Event -> nat

  ghost predicate Below(rank: Rank, es: seq<Event>, bound: nat)
  {
    forall i :: 0 <= i < |es| ==> rank(es[i]) < bound
  }

  ghost predicate AllBelow(rank: Rank, stretches: seq<seq<Event>>, bound: nat)
  {
    forall i :: 0 <= i < |stretches| ==> Below(rank, stretches[i], bound)
  }

  /** What a handler publishes before it returns, or throws, or awaits. */
  function FirstStretch(s: Script): seq<Event>
  {
    if s.Sync? then s.publishes else s.first
  }

  ghost predicate ScriptBelow(rank: Rank, s: Script, bound: nat)
  {
    match s
    case Sync(es, _) => Below(rank, es, bound)
    case Async(first, later, _) => Below(rank, first, bound) && AllBelow(rank, later, bound)
  }

  /** Every event a handler publishes ranks strictly below the event it was given. */
  ghost predicate Ranked(bus: Bus, rank: Rank)
  {
    forall h, e :: ScriptBelow(rank, bus.behave(h, e), rank(e))
  }

  datatype Call = Call(handler: HandlerId, event: Event)

  /** A handler that returned a promise: what is left of it, and the event it was given. */
  datatype Task = Task(rest: seq<seq<Event>>, event: Event)

  ghost predicate TaskOk(rank: Rank, t: Task)
  {
    AllBelow(rank, t.rest, rank(t.event))
  }

  ghost predicate TasksOk(rank: Rank, ts: seq<Task>)
  {
    forall i :: 0 <= i < |ts| ==> TaskOk(rank, ts[i])
  }

  // ------------------------------------------------------------------ what publishing does at once

  /** The calls `publish` makes before it returns, nested publishes included, in order. */
  ghost function CallsNow(bus: Bus, rank: Rank, es: seq<Event>, bound: nat): seq<Call>
    requires Ranked(bus, rank) && Below(rank, es, bound)
    decreases bound, 0, |es|
  {
    if es == [] then [] else HandlerCallsNow(bus, rank, es[0], HandlersOf(bus, es[0])) + CallsNow(bus, rank, es[1..], bound)
  }

  ghost function HandlerCallsNow(bus: Bus, rank: Rank, e: Event, hs: seq<HandlerId>): seq<Call>
    requires Ranked(bus, rank)
    decreases rank(e), 3, |hs|
  {
    if hs == [] then []
    else
      assert ScriptBelow(rank, bus.behave(hs[0], e), rank(e));
      ScriptCallsNow(bus, rank, hs[0], bus.behave(hs[0], e), e) + HandlerCallsNow(bus, rank, e, hs[1..])
  }

  ghost function ScriptCallsNow(bus: Bus, rank: Rank, h: HandlerId, s: Script, e: Event): seq<Call>
    requires Ranked(bus, rank) && ScriptBelow(rank, s, rank(e))
    decreases rank(e), 2, 0
  {
    [Call(h, e)] + CallsNow(bus, rank, FirstStretch(s), rank(e))
  }

  /** The promises it leaves behind, in the order they are added to the in-flight set. */
  ghost function TasksLeft(bus: Bus, rank: Rank, es: seq<Event>, bound: nat): seq<Task>
    requires Ranked(bus, rank) && Below(rank, es, bound)
    decreases bound, 0, |es|
  {
    if es == [] then [] else HandlerTasksLeft(bus, rank, es[0], HandlersOf(bus, es[0])) + TasksLeft(bus, rank, es[1..], bound)
  }

  ghost function HandlerTasksLeft(bus: Bus, rank: Rank, e: Event, hs: seq<HandlerId>): seq<Task>
    requires Ranked(bus, rank)
    decreases rank(e), 3, |hs|
  {
    if hs == [] then []
    else
      assert ScriptBelow(rank, bus.behave(hs[0], e), rank(e));
      ScriptTasksLeft(bus, rank, bus.behave(hs[0], e), e) + HandlerTasksLeft(bus, rank, e, hs[1..])
  }

  ghost function ScriptTasksLeft(bus: Bus, rank: Rank, s: Script, e: Event): seq<Task>
    requires Ranked(bus, rank) && ScriptBelow(rank, s, rank(e))
    decreases rank(e), 2, 0
  {
    TasksLeft(bus, rank, FirstStretch(s), rank(e)) + (if s.Async? then [Task(s.later, e)] else [])
  }

  // ------------------------------------------------------------------ what publishing does in the end

  /** Every call that follows from publishing some events, sooner or later. */
  ghost function AllCalls(bus: Bus, rank: Rank, es: seq<Event>, bound: nat): multiset<Call>
    requires Ranked(bus, rank) && Below(rank, es, bound)
    decreases bound, 0, |es|
  {
    if es == [] then multiset{}
    else HandlerAllCalls(bus, rank, es[0], HandlersOf(bus, es[0])) + AllCalls(bus, rank, es[1..], bound)
  }

  ghost function HandlerAllCalls(bus: Bus, rank: Rank, e: Event, hs: seq<HandlerId>): multiset<Call>
    requires Ranked(bus, rank)
    decreases rank(e), 3, |hs|
  {
    if hs == [] then multiset{}
    else
      assert ScriptBelow(rank, bus.behave(hs[0], e), rank(e));
      ScriptAllCalls(bus, rank, hs[0], bus.behave(hs[0], e), e) + HandlerAllCalls(bus, rank, e, hs[1..])
  }

  ghost function ScriptAllCalls(bus: Bus, rank: Rank, h: HandlerId, s: Script, e: Event): multiset<Call>
    requires Ranked(bus, rank) && ScriptBelow(rank, s, rank(e))
    decreases rank(e), 2, 0
  {
    multiset{Call(h, e)} + AllCalls(bus, rank, FirstStretch(s), rank(e))
    + (if s.Async? then StretchCalls(bus, rank, s.later, rank(e)) else multiset{})
  }

  ghost function StretchCalls(bus: Bus, rank: Rank, stretches: seq<seq<Event>>, bound: nat): multiset<Call>
    requires Ranked(bus, rank) && AllBelow(rank, stretches, bound)
    decreases bound, 1, |stretches|
  {
    if stretches == [] then multiset{}
    else
      assert Below(rank, stretches[0], bound);
      AllCalls(bus, rank, stretches[0], bound) + StretchCalls(bus, rank, stretches[1..], bound)
  }

  ghost function TaskCalls(bus: Bus, rank: Rank, ts: seq<Task>): multiset<Call>
    requires Ranked(bus, rank) && TasksOk(rank, ts)
  {
    if ts == [] then multiset{}
    else
      assert TaskOk(rank, ts[0]);
      StretchCalls(bus, rank, ts[0].rest, rank(ts[0].event)) + TaskCalls(bus, rank, ts[1..])
  }

  /** How many turns of the event loop the promises left by some events take until they are all cleaned up. */
  ghost function Turns(bus: Bus, rank: Rank, es: seq<Event>, bound: nat): nat
    requires Ranked(bus, rank) && Below(rank, es, bound)
    decreases bound, 0, |es|
  {
    if es == [] then 0 else HandlerTurns(bus, rank, es[0], HandlersOf(bus, es[0])) + Turns(bus, rank, es[1..], bound)
  }

  ghost function HandlerTurns(bus: Bus, rank: Rank, e: Event, hs: seq<HandlerId>): nat
    requires Ranked(bus, rank)
    decreases rank(e), 3, |hs|
  {
    if hs == [] then 0
    else
      assert ScriptBelow(rank, bus.behave(hs[0], e), rank(e));
      ScriptTurns(bus, rank, bus.behave(hs[0], e), e) + HandlerTurns(bus, rank, e, hs[1..])
  }

  ghost function ScriptTurns(bus: Bus, rank: Rank, s: Script, e: Event): nat
    requires Ranked(bus, rank) && ScriptBelow(rank, s, rank(e))
    decreases rank(e), 2, 0
  {
    Turns(bus, rank, FirstStretch(s), rank(e)) + (if s.Async? then 1 + StretchTurns(bus, rank, s.later, rank(e)) else 0)
  }

  ghost function StretchTurns(bus: Bus, rank: Rank, stretches: seq<seq<Event>>, bound: nat): nat
    requires Ranked(bus, rank) && AllBelow(rank, stretches, bound)
    decreases bound, 1, |stretches|
  {
    if stretches == [] then 0
    else
      assert Below(rank, stretches[0], bound);
      1 + Turns(bus, rank, stretches[0], bound) + StretchTurns(bus, rank, stretches[1..], bound)
  }

  ghost function TaskTurns(bus: Bus, rank: Rank, ts: seq<Task>): nat
    requires Ranked(bus, rank) && TasksOk(rank, ts)
  {
    if ts == [] then 0
    else
      assert TaskOk(rank, ts[0]);
      1 + StretchTurns(bus, rank, ts[0].rest, rank(ts[0].event)) + TaskTurns(bus, rank, ts[1..])
  }

  // ------------------------------------------------------------------ the two agree

  lemma {:induction false} TasksAppend(bus: Bus, rank: Rank, a: seq<Task>, b: seq<Task>)
    requires Ranked(bus, rank) && TasksOk(rank, a) && TasksOk(rank, b)
    ensures TasksOk(rank, a + b)
    ensures TaskCalls(bus, rank, a + b) == TaskCalls(bus, rank, a) + TaskCalls(bus, rank, b)
    ensures TaskTurns(bus, rank, a + b) == TaskTurns(bus, rank, a) + TaskTurns(bus, rank, b)
  {
    assert TasksOk(rank, a + b);
    if a == [] {
      assert a + b == b;
    } else {
      assert TasksOk(rank, a[1..]) && (a + b)[1..] == a[1..] + b;
      TasksAppend(bus, rank, a[1..], b);
    }
  }

  lemma {:induction false} OneTask(bus: Bus, rank: Rank, t: Task)
    requires Ranked(bus, rank) && TaskOk(rank, t)
    ensures TasksOk(rank, [t])
    ensures TaskCalls(bus, rank, [t]) == StretchCalls(bus, rank, t.rest, rank(t.event))
    ensures TaskTurns(bus, rank, [t]) == 1 + StretchTurns(bus, rank, t.rest, rank(t.event))
  {
    assert [t][1..] == [];
  }

  /** Two parts done at once and two parts left, put together by halves. */
  lemma Regroup<T>(now1: seq<T>, now2: seq<T>, left1: multiset<T>, left2: multiset<T>)
    ensures multiset(now1 + now2) + (left1 + left2) == (multiset(now1) + left1) + (multiset(now2) + left2)
  {
  }

  /** Nothing is lost and nothing is done twice: calls made at once plus calls left in promises are all calls. */
  lemma {:induction false} PublishingConserves(bus: Bus, rank: Rank, es: seq<Event>, bound: nat)
    requires Ranked(bus, rank) && Below(rank, es, bound)
    ensures TasksOk(rank, TasksLeft(bus, rank, es, bound))
    ensures multiset(CallsNow(bus, rank, es, bound)) + TaskCalls(bus, rank, TasksLeft(bus, rank, es, bound))
         == AllCalls(bus, rank, es, bound)
    ensures TaskTurns(bus, rank, TasksLeft(bus, rank, es, bound)) == Turns(bus, rank, es, bound)
    decreases bound, 0, |es|
  {
    hide HandlerCallsNow, HandlerTasksLeft, HandlerAllCalls, HandlerTurns, StretchCalls, StretchTurns;
    if es == [] {
    } else {
      hide TaskCalls, TaskTurns;
      var hs := HandlersOf(bus, es[0]);
      HandlingConserves(bus, rank, es[0], hs);
      PublishingConserves(bus, rank, es[1..], bound);
      var first, rest := HandlerTasksLeft(bus, rank, es[0], hs), TasksLeft(bus, rank, es[1..], bound);
      TasksAppend(bus, rank, first, rest);
      hide Below, HandlersOf, Ranked, TasksOk;
      Regroup(HandlerCallsNow(bus, rank, es[0], hs), CallsNow(bus, rank, es[1..], bound),
              TaskCalls(bus, rank, first), TaskCalls(bus, rank, rest));
    }
  }

  lemma {:induction false} HandlingConserves(bus: Bus, rank: Rank, e: Event, hs: seq<HandlerId>)
    requires Ranked(bus, rank)
    ensures TasksOk(rank, HandlerTasksLeft(bus, rank, e, hs))
    ensures multiset(HandlerCallsNow(bus, rank, e, hs)) + TaskCalls(bus, rank, HandlerTasksLeft(bus, rank, e, hs))
         == HandlerAllCalls(bus, rank, e, hs)
    ensures TaskTurns(bus, rank, HandlerTasksLeft(bus, rank, e, hs)) == HandlerTurns(bus, rank, e, hs)
    decreases rank(e), 3, |hs|
  {
    hide CallsNow, TasksLeft, AllCalls, Turns, StretchCalls, StretchTurns;
    if hs == [] {
    } else {
      hide TaskCalls, TaskTurns, ScriptCallsNow, ScriptTasksLeft, ScriptAllCalls, ScriptTurns;
      var s := bus.behave(hs[0], e);
      assert ScriptBelow(rank, s, rank(e));
      ScriptConserves(bus, rank, hs[0], s, e);
      HandlingConserves(bus, rank, e, hs[1..]);
      var first, rest := ScriptTasksLeft(bus, rank, s, e), HandlerTasksLeft(bus, rank, e, hs[1..]);
      TasksAppend(bus, rank, first, rest);
      hide Below, HandlersOf, Ranked, TasksOk, ScriptBelow;
      Regroup(ScriptCallsNow(bus, rank, hs[0], s, e), HandlerCallsNow(bus, rank, e, hs[1..]),
              TaskCalls(bus, rank, first), TaskCalls(bus, rank, rest));
    }
  }

  lemma {:induction false} ScriptConserves(bus: Bus, rank: Rank, h: HandlerId, s: Script, e: Event)
    requires Ranked(bus, rank) && ScriptBelow(rank, s, rank(e))
    ensures TasksOk(rank, ScriptTasksLeft(bus, rank, s, e))
    ensures multiset(ScriptCallsNow(bus, rank, h, s, e)) + TaskCalls(bus, rank, ScriptTasksLeft(bus, rank, s, e))
         == ScriptAllCalls(bus, rank, h, s, e)
    ensures TaskTurns(bus, rank, ScriptTasksLeft(bus, rank, s, e)) == ScriptTurns(bus, rank, s, e)
    decreases rank(e), 2, 0
  {
    hide CallsNow, TasksLeft, AllCalls, Turns, StretchCalls, StretchTurns, TaskCalls, TaskTurns;
    PublishingConserves(bus, rank, FirstStretch(s), rank(e));
    if s.Async? {
      OneTask(bus, rank, Task(s.later, e));
      TasksAppend(bus, rank, TasksLeft(bus, rank, FirstStretch(s), rank(e)), [Task(s.later, e)]);
    } else {
      assert ScriptTasksLeft(bus, rank, s, e) == TasksLeft(bus, rank, FirstStretch(s), rank(e));
    }
  }
}
