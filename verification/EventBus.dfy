/** The bus itself: its listener table and its set of in-flight promises, both changed in place. */
module EventBuses {
  import opened CallFlow
  import opened Handlers

  /** An in-flight promise; it is settled once its handler has nothing left to run. */
  datatype Promise = Promise(id: nat, task: Task)

  function Tasks(ps: seq<Promise>): seq<Task>
  {
    seq(|ps|, i requires 0 <= i < |ps| => ps[i].task)
  }

  lemma TasksSnoc(ps: seq<Promise>, p: Promise)
    ensures Tasks(ps + [p]) == Tasks(ps) + [p.task]
  {
  }

  lemma SplitAt(bus: Bus, rank: Rank, ts: seq<Task>, k: nat)
    requires Ranked(bus, rank) && TasksOk(rank, ts) && k < |ts|
    ensures TaskOk(rank, ts[k]) && TasksOk(rank, ts[..k] + ts[k + 1..])
    ensures TaskCalls(bus, rank, ts)
         == TaskCalls(bus, rank, ts[..k] + ts[k + 1..]) + StretchCalls(bus, rank, ts[k].rest, rank(ts[k].event))
    ensures TaskTurns(bus, rank, ts)
         == TaskTurns(bus, rank, ts[..k] + ts[k + 1..]) + 1 + StretchTurns(bus, rank, ts[k].rest, rank(ts[k].event))
  {
    hide TaskCalls, TaskTurns, StretchCalls, StretchTurns;
    assert ts == ts[..k] + [ts[k]] + ts[k + 1..];
    OneTask(bus, rank, ts[k]);
    TasksAppend(bus, rank, ts[..k], [ts[k]]);
    TasksAppend(bus, rank, ts[..k] + [ts[k]], ts[k + 1..]);
    TasksAppend(bus, rank, ts[..k], ts[k + 1..]);
  }

  /** One stretch of one task run: what it published at once moves out, what it left behind moves in. */
  lemma StretchRun(bus: Bus, rank: Rank, ts: seq<Task>, k: nat, left: seq<Task>)
    requires Ranked(bus, rank) && TasksOk(rank, ts) && k < |ts| && ts[k].rest != []
    requires Below(rank, ts[k].rest[0], rank(ts[k].event))
    requires left == TasksLeft(bus, rank, ts[k].rest[0], rank(ts[k].event))
    ensures var now := (ts + left)[k := Task(ts[k].rest[1..], ts[k].event)];
            && TasksOk(rank, now)
            && multiset(CallsNow(bus, rank, ts[k].rest[0], rank(ts[k].event))) + TaskCalls(bus, rank, now)
               == TaskCalls(bus, rank, ts)
            && TaskTurns(bus, rank, now) + 1 == TaskTurns(bus, rank, ts)
  {
    hide TaskCalls, TaskTurns, CallsNow, TasksLeft, AllCalls, Turns;
    var t, after := ts[k], Task(ts[k].rest[1..], ts[k].event);
    assert TaskOk(rank, t) && TaskOk(rank, after);
    var others := ts[..k] + ts[k + 1..];
    SplitAt(bus, rank, ts, k);
    PublishingConserves(bus, rank, t.rest[0], rank(t.event));
    TasksAppend(bus, rank, others, left);
    var now := (ts + left)[k := after];
    assert TasksOk(rank, now) by {
      forall i | 0 <= i < |now|
        ensures TaskOk(rank, now[i])
      {
        assert i < |ts| ==> TaskOk(rank, ts[i]);
        assert i >= |ts| ==> TaskOk(rank, left[i - |ts|]);
      }
    }
    SplitAt(bus, rank, now, k);
    assert now[..k] + now[k + 1..] == others + left;
  }

  /** `hs` is `before` without one occurrence of `h`, the others in their order. */
  ghost predicate IsWithout(hs: seq<HandlerId>, before: seq<HandlerId>, h: HandlerId)
  {
    exists i :: 0 <= i < |before| && before[i] == h && hs == before[..i] + before[i + 1..]
  }

  lemma Associates<T>(a: seq<T>, b: seq<T>, c: seq<T>)
    ensures a + b + c == a + (b + c)
  {
  }

  lemma FirstHandler(bus: Bus, rank: Rank, e: Event, hs: seq<HandlerId>)
    requires Ranked(bus, rank) && hs != []
    ensures var script := bus.behave(hs[0], e);
            && ScriptBelow(rank, script, rank(e))
            && HandlerCallsNow(bus, rank, e, hs)
               == ScriptCallsNow(bus, rank, hs[0], script, e) + HandlerCallsNow(bus, rank, e, hs[1..])
            && HandlerTasksLeft(bus, rank, e, hs)
               == ScriptTasksLeft(bus, rank, script, e) + HandlerTasksLeft(bus, rank, e, hs[1..])
  {
    hide CallsNow, TasksLeft, ScriptCallsNow, ScriptTasksLeft;
    assert ScriptBelow(rank, bus.behave(hs[0], e), rank(e));
  }

  lemma NoHandler(bus: Bus, rank: Rank, e: Event)
    requires Ranked(bus, rank)
    ensures HandlerCallsNow(bus, rank, e, []) == [] && HandlerTasksLeft(bus, rank, e, []) == []
  {
  }

  /** What the bus does about one event is what its listener table says. */
  lemma PublishIsInOrder(bus: Bus, rank: Rank, e: Event)
    requires Ranked(bus, rank)
    ensures var hs := if e.name in bus.listeners then bus.listeners[e.name] else [];
            var cs := HandlerCallsNow(bus, rank, e, hs);
            && HandlersOf(bus, e) == hs
            && (hs == [] ==> cs == [] && HandlerTasksLeft(bus, rank, e, hs) == [])
            && (exists at :: CalledInOrder(cs, hs, e, at)) && ClosedAtOnce(bus, cs)
            && Flows(bus, multiset(Fan(bus, e)), cs, HandlerTasksLeft(bus, rank, e, hs))
  {
    hide CallsNow, TasksLeft, ScriptCallsNow, ScriptTasksLeft, ClosedAtOnce, CalledInOrder, CausedAtOnce, CausedLater;
    var hs := HandlersOf(bus, e);
    var at := HandlersInOrder(bus, rank, e, hs);
    HandlingFlows(bus, rank, e, hs);
    CausedIsClosed(bus, HandlerCallsNow(bus, rank, e, hs));
  }

  lemma FirstStretchBelow(rank: Rank, ts: seq<Task>, k: nat)
    requires TasksOk(rank, ts) && k < |ts| && ts[k].rest != []
    ensures Below(rank, ts[k].rest[0], rank(ts[k].event))
  {
    assert TaskOk(rank, ts[k]);
  }

  class EventBus {
    var listeners: map<string, seq<HandlerId>>
    const behave: (HandlerId, Event) -> Script
    var activePromises: seq<Promise>
    var nextId: nat
    /** Every handler call made so far, and the promises that have settled. */
    ghost var calls: seq<Call>
    ghost var settled: set<nat>

    ghost function Config(): Bus
      reads this
    {
      Bus(listeners, behave)
    }

    /** Promises are distinct, and one that has not settled is in the in-flight set. */
    ghost predicate Valid()
      reads this
    {
      && (forall i, j :: 0 <= i < j < |activePromises| ==> activePromises[i].id != activePromises[j].id)
      && (forall i :: 0 <= i < |activePromises| ==>
            && activePromises[i].id < nextId
            && (activePromises[i].id in settled <==> activePromises[i].task.rest == []))
      && (forall id :: 0 <= id < nextId && id !in settled ==> InFlight(id))
      && (forall id :: id in settled ==> id < nextId)
    }

    ghost predicate InFlight(id: nat)
      reads this
    {
      exists i :: 0 <= i < |activePromises| && activePromises[i].id == id
    }

    constructor (behave: (HandlerId, Event) -> Script)
      ensures Valid() && listeners == map[] && activePromises == [] && calls == []
      ensures this.behave == behave
    {
      this.behave := behave;
      listeners, activePromises, nextId, calls, settled := map[], [], 0, [], {};
    }

    /** Adding a handler twice leaves it where it was, as a JavaScript `Set` does. */
    method Subscribe(event: string, handler: HandlerId)
      modifies `listeners
      ensures var before := if event in old(listeners) then old(listeners)[event] else [];
              listeners == old(listeners)[event := if handler in before then before else before + [handler]]
    {
      if event !in listeners {
        listeners := listeners[event := []];
      }
      if handler !in listeners[event] {
        listeners := listeners[event := listeners[event] + [handler]];
      }
    }

    method Unsubscribe(event: string, handler: HandlerId)
      requires event in listeners ==>
                 forall i, j :: 0 <= i < j < |listeners[event]| ==> listeners[event][i] != listeners[event][j]
      modifies `listeners
      ensures listeners.Keys == old(listeners).Keys
      ensures forall e :: e in listeners && e != event ==> listeners[e] == old(listeners)[e]
      ensures event in listeners ==> handler !in listeners[event]
      ensures event in listeners ==>
                if handler in old(listeners)[event] then IsWithout(listeners[event], old(listeners)[event], handler)
                else listeners[event] == old(listeners)[event]
    {
      if event in listeners && handler in listeners[event] {
        var hs := listeners[event];
        var i :| 0 <= i < |hs| && hs[i] == handler;
        listeners := listeners[event := hs[..i] + hs[i + 1..]];
        assert IsWithout(listeners[event], hs, handler);
      }
    }

    /**
     * `publish`: a throwing or rejecting handler is logged, and the next one runs all the same. Every subscriber is
     * called, in order, and so is every subscriber of whatever the calls publish at once.
     */
    method Publish(ghost rank: Rank, e: Event) returns (ghost made: seq<Call>, ghost left: seq<Task>)
      requires Valid() && Ranked(Config(), rank)
      modifies `activePromises, `nextId, `calls, `settled
      ensures Valid() && settled >= old(settled) && nextId >= old(nextId)
      ensures calls == old(calls) + HandlerCallsNow(Config(), rank, e, HandlersOf(Config(), e))
      ensures |activePromises| >= |old(activePromises)| && activePromises[..|old(activePromises)|] == old(activePromises)
      ensures Tasks(activePromises) == Tasks(old(activePromises)) + HandlerTasksLeft(Config(), rank, e, HandlersOf(Config(), e))
      ensures calls == old(calls) + made && Tasks(activePromises) == Tasks(old(activePromises)) + left
      ensures e.name !in listeners || listeners[e.name] == [] ==> made == [] && left == []
      ensures e.name in listeners ==> exists at :: CalledInOrder(made, listeners[e.name], e, at)
      ensures ClosedAtOnce(Config(), made) && Flows(Config(), multiset(Fan(Config(), e)), made, left)
      decreases rank(e), 1, 1
    {
      hide CallsNow, TasksLeft, ScriptCallsNow, ScriptTasksLeft, HandlerCallsNow, HandlerTasksLeft, Ranked, Tasks;
      hide Flows, ClosedAtOnce, CalledInOrder, Fan;
      PublishIsInOrder(Config(), rank, e);
      NoHandler(Config(), rank, e);
      var handlers := if e.name in listeners then listeners[e.name] else [];
      ghost var bus := Config();
      var i := 0;
      while i < |handlers|
        invariant 0 <= i <= |handlers|
        invariant Valid() && settled >= old(settled) && nextId >= old(nextId)
        invariant calls + HandlerCallsNow(bus, rank, e, handlers[i..]) == old(calls) + HandlerCallsNow(bus, rank, e, handlers)
        invariant |activePromises| >= |old(activePromises)| && activePromises[..|old(activePromises)|] == old(activePromises)
        invariant Tasks(activePromises) + HandlerTasksLeft(bus, rank, e, handlers[i..])
               == Tasks(old(activePromises)) + HandlerTasksLeft(bus, rank, e, handlers)
      {
        assert handlers[i..][0] == handlers[i] && handlers[i..][1..] == handlers[i + 1..];
        ghost var script := behave(handlers[i], e);
        FirstHandler(bus, rank, e, handlers[i..]);
        Associates(calls, ScriptCallsNow(bus, rank, handlers[i], script, e), HandlerCallsNow(bus, rank, e, handlers[i + 1..]));
        Associates(Tasks(activePromises), ScriptTasksLeft(bus, rank, script, e),
                   HandlerTasksLeft(bus, rank, e, handlers[i + 1..]));
        CallHandler(rank, handlers[i], e);
        i := i + 1;
      }
      assert handlers[|handlers|..] == [];
      made, left := HandlerCallsNow(bus, rank, e, handlers), HandlerTasksLeft(bus, rank, e, handlers);
    }

    /** One turn of the `forEach` in `publish`. */
    method CallHandler(ghost rank: Rank, h: HandlerId, e: Event)
      requires Valid() && Ranked(Config(), rank)
      modifies `activePromises, `nextId, `calls, `settled
      ensures Valid() && settled >= old(settled) && nextId >= old(nextId)
      ensures ScriptBelow(rank, behave(h, e), rank(e))
      ensures calls == old(calls) + ScriptCallsNow(Config(), rank, h, behave(h, e), e)
      ensures |activePromises| >= |old(activePromises)| && activePromises[..|old(activePromises)|] == old(activePromises)
      ensures Tasks(activePromises) == Tasks(old(activePromises)) + ScriptTasksLeft(Config(), rank, behave(h, e), e)
      decreases rank(e), 1, 0
    {
      hide CallsNow, TasksLeft;
      var script := behave(h, e);
      assert ScriptBelow(rank, script, rank(e));
      calls := calls + [Call(h, e)];
      RunStretch(rank, FirstStretch(script), rank(e));
      if script.Async? {
        AddPromise(Task(script.later, e));
      }
    }

    /** `activePromises.add`. */
    method AddPromise(task: Task)
      requires Valid()
      modifies `activePromises, `nextId, `settled
      ensures Valid() && settled >= old(settled) && nextId == old(nextId) + 1
      ensures activePromises == old(activePromises) + [Promise(old(nextId), task)]
      ensures Tasks(activePromises) == Tasks(old(activePromises)) + [task]
    {
      ghost var before := activePromises;
      TasksSnoc(before, Promise(nextId, task));
      hide Tasks;
      activePromises := activePromises + [Promise(nextId, task)];
      if task.rest == [] {
        settled := settled + {nextId};
      }
      nextId := nextId + 1;
      assert activePromises[|before|].id == nextId - 1;
      forall id | 0 <= id < nextId && id !in settled
        ensures InFlight(id)
      {
        if id < nextId - 1 {
          var i :| 0 <= i < |before| && before[i].id == id;
          assert activePromises[i].id == id;
        }
      }
    }

    /** One synchronous stretch of a handler: its publishes, in order. */
    method RunStretch(ghost rank: Rank, es: seq<Event>, ghost bound: nat)
      requires Valid() && Ranked(Config(), rank) && Below(rank, es, bound)
      modifies `activePromises, `nextId, `calls, `settled
      ensures Valid() && settled >= old(settled) && nextId >= old(nextId)
      ensures calls == old(calls) + CallsNow(Config(), rank, es, bound)
      ensures |activePromises| >= |old(activePromises)| && activePromises[..|old(activePromises)|] == old(activePromises)
      ensures Tasks(activePromises) == Tasks(old(activePromises)) + TasksLeft(Config(), rank, es, bound)
      decreases bound, 0, 0
    {
      hide HandlerCallsNow, HandlerTasksLeft, Ranked, Tasks, Flows, ClosedAtOnce, CalledInOrder, Fan;
      ghost var bus := Config();
      var i := 0;
      while i < |es|
        invariant 0 <= i <= |es|
        invariant Valid() && settled >= old(settled) && nextId >= old(nextId)
        invariant calls + CallsNow(bus, rank, es[i..], bound) == old(calls) + CallsNow(bus, rank, es, bound)
        invariant |activePromises| >= |old(activePromises)| && activePromises[..|old(activePromises)|] == old(activePromises)
        invariant Tasks(activePromises) + TasksLeft(bus, rank, es[i..], bound)
               == Tasks(old(activePromises)) + TasksLeft(bus, rank, es, bound)
      {
        assert es[i..][0] == es[i] && es[i..][1..] == es[i + 1..];
        ghost var hs := HandlersOf(bus, es[i]);
        Associates(calls, HandlerCallsNow(bus, rank, es[i], hs), CallsNow(bus, rank, es[i + 1..], bound));
        Associates(Tasks(activePromises), HandlerTasksLeft(bus, rank, es[i], hs), TasksLeft(bus, rank, es[i + 1..], bound));
        ghost var made, left := Publish(rank, es[i]);
        i := i + 1;
      }
      assert es[|es|..] == [];
    }

    /** `finally`: a settled promise leaves the in-flight set. */
    method CleanUp(ghost rank: Rank, k: nat)
      requires Valid() && Ranked(Config(), rank) && TasksOk(rank, Tasks(activePromises))
      requires k < |activePromises| && activePromises[k].task.rest == []
      modifies `activePromises
      ensures Valid() && TasksOk(rank, Tasks(activePromises))
      ensures TaskCalls(Config(), rank, Tasks(activePromises)) == TaskCalls(Config(), rank, Tasks(old(activePromises)))
      ensures TaskTurns(Config(), rank, Tasks(activePromises)) + 1 == TaskTurns(Config(), rank, Tasks(old(activePromises)))
      ensures TaskFans(Config(), Tasks(activePromises)) == TaskFans(Config(), Tasks(old(activePromises)))
    {
      hide TaskCalls, TaskTurns, Ranked, TasksOk, TaskFans;
      ghost var before := activePromises;
      SplitAt(Config(), rank, Tasks(before), k);
      TaskFansSplit(Config(), Tasks(before), k);
      Remove(k);
      assert Tasks(activePromises) == Tasks(before)[..k] + Tasks(before)[k + 1..];
    }

    /** `activePromises.delete`. */
    method Remove(k: nat)
      requires Valid() && k < |activePromises| && activePromises[k].task.rest == []
      modifies `activePromises
      ensures Valid() && activePromises == old(activePromises)[..k] + old(activePromises)[k + 1..]
    {
      ghost var before := activePromises;
      activePromises := activePromises[..k] + activePromises[k + 1..];
      forall id | 0 <= id < nextId && id !in settled
        ensures InFlight(id)
      {
        var i :| 0 <= i < |before| && before[i].id == id;
        assert activePromises[if i < k then i else i - 1].id == id;
      }
    }

    /** An awaited operation completes and its handler runs up to its next await, or to its end. */
    method Resume(ghost rank: Rank, k: nat)
      requires Valid() && Ranked(Config(), rank) && TasksOk(rank, Tasks(activePromises))
      requires k < |activePromises| && activePromises[k].task.rest != []
      modifies `activePromises, `nextId, `calls, `settled
      ensures Valid() && settled >= old(settled) && nextId >= old(nextId) && TasksOk(rank, Tasks(activePromises))
      ensures old(calls) <= calls
      ensures multiset(calls) + TaskCalls(Config(), rank, Tasks(activePromises))
           == multiset(old(calls)) + TaskCalls(Config(), rank, Tasks(old(activePromises)))
      ensures TaskTurns(Config(), rank, Tasks(activePromises)) + 1 == TaskTurns(Config(), rank, Tasks(old(activePromises)))
      ensures Drains(Config(), TaskFans(Config(), Tasks(old(activePromises))), calls[|old(calls)|..], Tasks(activePromises))
    {
      hide TaskCalls, TaskTurns, CallsNow, TasksLeft, Ranked, TasksOk, Drains, Flows, TaskFans, Fans;
      ghost var before := activePromises;
      var p := activePromises[k];
      FirstStretchBelow(rank, Tasks(before), k);
      RunStretch(rank, p.task.rest[0], rank(p.task.event));
      assert activePromises[k] == before[k] == p;
      ghost var left := TasksLeft(Config(), rank, p.task.rest[0], rank(p.task.event));
      StretchRun(Config(), rank, Tasks(before), k, left);
      PublishingFlows(Config(), rank, p.task.rest[0], rank(p.task.event));
      StretchDrains(Config(), Tasks(before), k, CallsNow(Config(), rank, p.task.rest[0], rank(p.task.event)), left);
      SetRest(k, p.task.rest[1..]);
      assert Tasks(activePromises) == (Tasks(before) + left)[k := Task(p.task.rest[1..], p.task.event)];
    }

    /** The handler behind promise `k` has this much left; with nothing left its promise settles. */
    method SetRest(k: nat, rest: seq<seq<Event>>)
      requires Valid() && k < |activePromises| && activePromises[k].task.rest != []
      modifies `activePromises, `settled
      ensures Valid() && settled >= old(settled)
      ensures var p := old(activePromises)[k];
              activePromises == old(activePromises)[k := Promise(p.id, Task(rest, p.task.event))]
    {
      ghost var before := activePromises;
      var p := activePromises[k];
      activePromises := activePromises[k := Promise(p.id, Task(rest, p.task.event))];
      if rest == [] {
        settled := settled + {p.id};
      }
      forall id | 0 <= id < nextId && id !in settled
        ensures InFlight(id)
      {
        var i :| 0 <= i < |before| && before[i].id == id;
        assert activePromises[i].id == id;
      }
    }

    /** One turn of the event loop, on whichever promise the loop picks. */
    method Turn(ghost rank: Rank)
      requires Valid() && Ranked(Config(), rank) && TasksOk(rank, Tasks(activePromises)) && activePromises != []
      modifies `activePromises, `nextId, `calls, `settled
      ensures Valid() && settled >= old(settled) && nextId >= old(nextId) && TasksOk(rank, Tasks(activePromises))
      ensures old(calls) <= calls
      ensures multiset(calls) + TaskCalls(Config(), rank, Tasks(activePromises))
           == multiset(old(calls)) + TaskCalls(Config(), rank, Tasks(old(activePromises)))
      ensures TaskTurns(Config(), rank, Tasks(activePromises)) + 1 == TaskTurns(Config(), rank, Tasks(old(activePromises)))
      ensures Drains(Config(), TaskFans(Config(), Tasks(old(activePromises))), calls[|old(calls)|..], Tasks(activePromises))
    {
      hide TaskCalls, TaskTurns, TaskFans, CausedAtOnce, CausedLater;
      var k: nat :| k < |activePromises|;
      if activePromises[k].task.rest == [] {
        CleanUp(rank, k);
        NothingDrained(Config(), Tasks(activePromises));
      } else {
        Resume(rank, k);
      }
    }

    /** How a drain stands that began with these calls made and these promises out, `came` events having come in. */
    ghost predicate Draining(rank: Rank, outside: seq<Event>, bound: nat, began: seq<Call>, out: seq<Task>, came: nat)
      requires Ranked(Config(), rank) && TasksOk(rank, out) && Below(rank, outside, bound)
      reads this
    {
      && Valid() && TasksOk(rank, Tasks(activePromises)) && began <= calls && came <= |outside|
      && multiset(calls) + TaskCalls(Config(), rank, Tasks(activePromises)) + AllCalls(Config(), rank, outside[came..], bound)
         == multiset(began) + TaskCalls(Config(), rank, out) + AllCalls(Config(), rank, outside, bound)
      && Drains(Config(), TaskFans(Config(), out) + Fans(Config(), outside[..came]), calls[|began|..], Tasks(activePromises))
    }

    /** The next of the `outside` events comes in. */
    method PublishNext(ghost rank: Rank, outside: seq<Event>, ghost bound: nat, k: nat) returns (came: nat)
      requires Valid() && Ranked(Config(), rank) && TasksOk(rank, Tasks(activePromises))
      requires k < |outside| && Below(rank, outside, bound)
      modifies `activePromises, `nextId, `calls, `settled
      ensures Valid() && TasksOk(rank, Tasks(activePromises)) && old(calls) <= calls && came == k + 1
      ensures multiset(calls) + TaskCalls(Config(), rank, Tasks(activePromises)) + AllCalls(Config(), rank, outside[came..], bound)
           == multiset(old(calls)) + TaskCalls(Config(), rank, Tasks(old(activePromises)))
              + AllCalls(Config(), rank, outside[k..], bound)
      ensures Drains(Config(), TaskFans(Config(), Tasks(old(activePromises))) + Fans(Config(), outside[k..came]),
                     calls[|old(calls)|..], Tasks(activePromises))
    {
      hide Drains, Flows, TaskFans, Fan, CalledInOrder, ClosedAtOnce;
      hide TaskCalls, TaskTurns, HandlerCallsNow, HandlerTasksLeft, HandlerAllCalls, HandlerTurns;
      assert outside[k..][0] == outside[k] && outside[k..][1..] == outside[k + 1..];
      ghost var e, before := outside[k], Tasks(activePromises);
      HandlingConserves(Config(), rank, e, HandlersOf(Config(), e));
      TasksAppend(Config(), rank, before, HandlerTasksLeft(Config(), rank, e, HandlersOf(Config(), e)));
      ghost var made, left := Publish(rank, outside[k]);
      came := k + 1;
      assert Drains(Config(), TaskFans(Config(), before) + Fans(Config(), outside[k..came]), made, Tasks(activePromises)) by {
        PublishDrains(Config(), before, e, made, left);
        OneEvent(Config(), e);
        assert outside[k..came] == [e];
      }
      assert calls[|old(calls)|..] == made;
    }

    /** Between two turns other code may publish, here the next of the `outside` events. */
    method TurnOrPublish(ghost rank: Rank, outside: seq<Event>, ghost bound: nat, k: nat) returns (came: nat)
      requires Valid() && Ranked(Config(), rank) && TasksOk(rank, Tasks(activePromises)) && activePromises != []
      requires k <= |outside| && Below(rank, outside, bound)
      modifies `activePromises, `nextId, `calls, `settled
      ensures Valid() && TasksOk(rank, Tasks(activePromises)) && old(calls) <= calls && k <= came <= |outside|
      ensures multiset(calls) + TaskCalls(Config(), rank, Tasks(activePromises)) + AllCalls(Config(), rank, outside[came..], bound)
           == multiset(old(calls)) + TaskCalls(Config(), rank, Tasks(old(activePromises)))
              + AllCalls(Config(), rank, outside[k..], bound)
      ensures came == k
          ==> TaskTurns(Config(), rank, Tasks(activePromises)) < TaskTurns(Config(), rank, Tasks(old(activePromises)))
      ensures Drains(Config(), TaskFans(Config(), Tasks(old(activePromises))) + Fans(Config(), outside[k..came]),
                     calls[|old(calls)|..], Tasks(activePromises))
    {
      hide Drains, TaskFans, TaskCalls, TaskTurns;
      came := k;
      var comes: bool := *;
      if comes && k < |outside| {
        came := PublishNext(rank, outside, bound, k);
      } else {
        ghost var out := TaskFans(Config(), Tasks(activePromises));
        Turn(rank);
        assert outside[k..came] == [];
        assert out + Fans(Config(), outside[k..came]) == out;
      }
    }

    /** The same, seen from where the drain began. */
    method DrainStep(ghost rank: Rank, outside: seq<Event>, ghost bound: nat, ghost began: seq<Call>, ghost out: seq<Task>, k: nat)
      returns (came: nat)
      requires Ranked(Config(), rank) && TasksOk(rank, out) && Below(rank, outside, bound)
      requires Draining(rank, outside, bound, began, out, k) && activePromises != []
      modifies `activePromises, `nextId, `calls, `settled
      ensures Draining(rank, outside, bound, began, out, came) && k <= came
      ensures came == k
          ==> TaskTurns(Config(), rank, Tasks(activePromises)) < TaskTurns(Config(), rank, Tasks(old(activePromises)))
    {
      hide TaskCalls, TaskTurns, AllCalls, Drains, TaskFans, Fans;
      ghost var ts, cs := Tasks(activePromises), calls;
      came := TurnOrPublish(rank, outside, bound, k);
      FansAppend(Config(), outside[..k], outside[k..came]);
      assert outside[..k] + outside[k..came] == outside[..came];
      DrainsOn(Config(), TaskFans(Config(), out) + Fans(Config(), outside[..k]), cs[|began|..], ts,
               Fans(Config(), outside[k..came]), calls[|cs|..], Tasks(activePromises));
      assert cs[|began|..] + calls[|cs|..] == calls[|began|..];
      SumAssociates(TaskFans(Config(), out), Fans(Config(), outside[..k]), Fans(Config(), outside[k..came]));
    }

    /**
     * `allSettled`: take a snapshot, await it, look again. Whatever order the event loop picks, and whatever
     * finitely many events other code publishes in the meantime, it returns; when it does, nothing is in flight,
     * every promise ever created has settled, and the calls made meanwhile are exactly the ones the in-flight
     * handlers and the events that came had left to make, each made once.
     */
    method AllSettled(ghost rank: Rank, outside: seq<Event>, ghost bound: nat) returns (came: nat)
      requires Valid() && Ranked(Config(), rank) && TasksOk(rank, Tasks(activePromises)) && Below(rank, outside, bound)
      modifies `activePromises, `nextId, `calls, `settled
      ensures Valid() && activePromises == [] && came <= |outside|
      ensures forall id :: 0 <= id < nextId ==> id in settled
      ensures old(calls) <= calls
      ensures multiset(calls) + AllCalls(Config(), rank, outside[came..], bound)
           == multiset(old(calls)) + TaskCalls(Config(), rank, Tasks(old(activePromises)))
              + AllCalls(Config(), rank, outside, bound)
      ensures var made := calls[|old(calls)|..];
              && multiset(made) == TaskFans(Config(), Tasks(old(activePromises))) + Fans(Config(), outside[..came])
                                   + CausedAtOnce(Config(), made) + CausedLater(Config(), made)
              && ClosedAtOnce(Config(), made) && ClosedLater(Config(), made)
    {
      hide TaskTurns, AllCalls, TaskFans, Fans, CausedAtOnce, CausedLater, ClosedAtOnce, ClosedLater, Drains, TaskCalls;
      ghost var bus, began, out := Config(), calls, Tasks(activePromises);
      DrainBegins(rank, outside, bound);
      came := 0;
      while |activePromises| > 0
        invariant Config() == bus && Draining(rank, outside, bound, began, out, came)
        decreases |outside| - came, TaskTurns(bus, rank, Tasks(activePromises))
      {
        ghost var turns, earlier := TaskTurns(bus, rank, Tasks(activePromises)), came;
        var snapshot := set i | 0 <= i < |activePromises| :: activePromises[i].id;
        came := DrainStep(rank, outside, bound, began, out, came);
        while exists i :: 0 <= i < |activePromises| && activePromises[i].id in snapshot && activePromises[i].task.rest != []
          invariant Config() == bus && Draining(rank, outside, bound, began, out, came) && earlier <= came
          invariant came == earlier ==> TaskTurns(bus, rank, Tasks(activePromises)) < turns
          decreases |outside| - came, TaskTurns(bus, rank, Tasks(activePromises))
        {
          came := DrainStep(rank, outside, bound, began, out, came);
        }
      }
      DrainEnds(rank, outside, bound, began, out, came);
    }

    lemma DrainBegins(rank: Rank, outside: seq<Event>, bound: nat)
      requires Valid() && Ranked(Config(), rank) && TasksOk(rank, Tasks(activePromises)) && Below(rank, outside, bound)
      ensures Draining(rank, outside, bound, calls, Tasks(activePromises), 0)
    {
      assert outside[0..] == outside && outside[..0] == [] && calls[|calls|..] == [];
      NothingDrained(Config(), Tasks(activePromises));
      assert TaskFans(Config(), Tasks(activePromises)) + Fans(Config(), []) == TaskFans(Config(), Tasks(activePromises));
    }

    lemma DrainEnds(rank: Rank, outside: seq<Event>, bound: nat, began: seq<Call>, out: seq<Task>, came: nat)
      requires Ranked(Config(), rank) && TasksOk(rank, out) && Below(rank, outside, bound)
      requires Draining(rank, outside, bound, began, out, came) && activePromises == []
      ensures forall id :: 0 <= id < nextId ==> id in settled
      ensures multiset(calls) + AllCalls(Config(), rank, outside[came..], bound)
           == multiset(began) + TaskCalls(Config(), rank, out) + AllCalls(Config(), rank, outside, bound)
      ensures var made := calls[|began|..];
              && multiset(made) == TaskFans(Config(), out) + Fans(Config(), outside[..came])
                                   + CausedAtOnce(Config(), made) + CausedLater(Config(), made)
              && ClosedAtOnce(Config(), made) && ClosedLater(Config(), made)
    {
      hide AllCalls, Fans, CausedAtOnce, CausedLater, ClosedAtOnce, ClosedLater;
      assert TaskCalls(Config(), rank, Tasks(activePromises)) == multiset{} && TaskFans(Config(), []) == multiset{};
      CausedIsClosed(Config(), calls[|began|..]);
      forall id | 0 <= id < nextId
        ensures id in settled
      {
        assert !InFlight(id);
      }
    }
  }
}
