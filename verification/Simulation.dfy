/**
 The simulation engine as the service sees it: a deterministic event-queue machine.

 `run(until=t)` fires everything due before `t`, in order of due time and then of scheduling,
 and sets the clock to `t`. What an event does, and so what becomes pending next, is an
 arbitrary function of the model's state. Nothing bounds how much happens at one moment, so a
 call may never return; it may also raise, part-way through.

 The main result is `Composition`: running to `a` and then to `b` is running to `b`.
 */
module Simulation {
  import opened Json

  type Env(!new)    // everything a model remembers besides its clock and queue
  type Task(!new)   // what a pending event will do

  datatype EventKind = In | Out | Loc
  datatype Notice = Notice(event: EventKind, trainUid: string, componentUid: string, componentType: string)
  datatype SimEvent = SimEvent(time: int, notice: Notice)

  datatype Timer = Timer(delay: nat, task: Task)
  datatype Pending = Pending(due: int, task: Task)
  datatype Sim = Sim(now: int, env: Env, queue: seq<Pending>)

  // What firing one event does; `Crashes` keeps what it had reported before it raised.
  datatype Reaction = Continues(env: Env, notices: seq<Notice>, timers: seq<Timer>) | Crashes(notices: seq<Notice>)

  // Building and starting a model: its first state, and what starting it reported and scheduled.
  datatype Build = Built(env: Env, notices: seq<Notice>, timers: seq<Timer>) | Unbuildable

  datatype Report = Report(notices: seq<Notice>) | Unreportable

  // spur itself: `build` takes a project and a random seed and fixes every later draw.
  datatype Simulator = Simulator(
    build: (Spec, int) -> Build,
    react: (Env, int, Task) -> Reaction,
    locate: Env -> Report)

  function Stamp(time: int, notices: seq<Notice>): seq<SimEvent> {
    seq(|notices|, i requires 0 <= i < |notices| => SimEvent(time, notices[i]))
  }

  /*********************************** The pending-event queue ***********************************/

  ghost predicate Sorted(queue: seq<Pending>) {
    forall i, j :: 0 <= i < j < |queue| ==> queue[i].due <= queue[j].due
  }

  ghost predicate NoneBefore(queue: seq<Pending>, time: int) {
    forall i :: 0 <= i < |queue| ==> time <= queue[i].due
  }

  // Behind everything due at the same time: first scheduled, first fired.
  function Insert(queue: seq<Pending>, p: Pending): (r: seq<Pending>)
    ensures forall x :: x in r <==> x in queue || x == p
    ensures Sorted(queue) ==> Sorted(r)
  {
    if queue == [] || p.due < queue[0].due then [p] + queue
    else
      var rest := Insert(queue[1..], p);
      assert Sorted(queue) ==> forall i :: 0 <= i < |rest| ==> queue[0].due <= rest[i].due by {
        assert forall i :: 0 <= i < |rest| ==> rest[i] in rest;
      }
      [queue[0]] + rest
  }

  function Schedule(queue: seq<Pending>, now: int, timers: seq<Timer>): (r: seq<Pending>)
    ensures Sorted(queue) ==> Sorted(r)
    ensures NoneBefore(queue, now) ==> NoneBefore(r, now)
    decreases |timers|
  {
    if timers == [] then queue
    else
      var next := Insert(queue, Pending(now + timers[0].delay, timers[0].task));
      assert NoneBefore(queue, now) ==> NoneBefore(next, now) by {
        assert forall i :: 0 <= i < |next| ==> next[i] in next;
      }
      Schedule(next, now, timers[1..])
  }

  // The queue is in order and nothing in it is overdue.
  ghost predicate Orderly(s: Sim) {
    Sorted(s.queue) && NoneBefore(s.queue, s.now)
  }

  function Start(env: Env, timers: seq<Timer>): (s: Sim)
    ensures Orderly(s) && s.now == 0
  {
    Sim(0, env, Schedule([], 0, timers))
  }

  // What scheduling these timers adds to the queue.
  function Scheduled(now: int, timers: seq<Timer>): multiset<Pending>
    decreases |timers|
  {
    if timers == [] then multiset{}
    else Scheduled(now, timers[1..]) + multiset{Pending(now + timers[0].delay, timers[0].task)}
  }

  /** An event is put behind everything that is not due later and before everything that is, so that
      of events due at one time the first scheduled is the first fired. */
  lemma {:induction false} InsertedInTurn(queue: seq<Pending>, p: Pending) returns (at: nat)
    requires Sorted(queue)
    ensures at <= |queue| && Insert(queue, p) == queue[..at] + [p] + queue[at..]
    ensures forall i :: 0 <= i < at ==> queue[i].due <= p.due
    ensures forall i :: at <= i < |queue| ==> p.due < queue[i].due
    decreases |queue|
  {
    if queue == [] || p.due < queue[0].due {
      at := 0;
      assert queue[..0] + [p] + queue[0..] == [p] + queue;
    } else {
      var rest := InsertedInTurn(queue[1..], p);
      at := rest + 1;
      assert queue[..at] + [p] + queue[at..] == [queue[0]] + (queue[1..][..rest] + [p] + queue[1..][rest..]);
    }
  }

  lemma {:induction false} NothingLostInScheduling(queue: seq<Pending>, now: int, timers: seq<Timer>)
    requires Sorted(queue)
    ensures multiset(Schedule(queue, now, timers)) == multiset(queue) + Scheduled(now, timers)
    decreases |timers|
  {
    if timers == [] {
    } else {
      var p := Pending(now + timers[0].delay, timers[0].task);
      var at := InsertedInTurn(queue, p);
      assert queue == queue[..at] + queue[at..];
      NothingLostInScheduling(Insert(queue, p), now, timers[1..]);
    }
  }

  /***************************************** Running *****************************************/

  predicate Due(s: Sim, until: int) {
    s.queue != [] && s.queue[0].due < until
  }

  datatype Firing = Fired(sim: Sim, events: seq<SimEvent>) | Broke(events: seq<SimEvent>)

  function Fire(m: Simulator, s: Sim): Firing
    requires s.queue != []
  {
    var now := s.queue[0].due;
    match m.react(s.env, now, s.queue[0].task)
    case Continues(env, notices, timers) =>
      Fired(Sim(now, env, Schedule(s.queue[1..], now, timers)), Stamp(now, notices))
    case Crashes(notices) => Broke(Stamp(now, notices))
  }

  lemma RestAndNewPending(queue: seq<Pending>, timers: seq<Timer>)
    requires Sorted(queue) && queue != []
    ensures multiset(Schedule(queue[1..], queue[0].due, timers))
            == multiset(queue) - multiset{queue[0]} + Scheduled(queue[0].due, timers)
  {
    assert queue == [queue[0]] + queue[1..];
    NothingLostInScheduling(queue[1..], queue[0].due, timers);
  }

  /** Firing takes the first pending event, one that is due no later than any other, and does just what
      the simulator says of it: what it reports carries the time it was due, in the order reported; what
      else was pending stays, and what it schedules is added. */
  lemma FiringLosesNothing(m: Simulator, s: Sim)
    requires Orderly(s) && s.queue != []
    ensures forall i :: 0 <= i < |s.queue| ==> s.queue[0].due <= s.queue[i].due
    ensures match m.react(s.env, s.queue[0].due, s.queue[0].task)
            case Continues(env, notices, timers) =>
              && Fire(m, s).Fired?
              && var f := Fire(m, s);
              && f.sim.env == env && f.sim.now == s.queue[0].due
              && multiset(f.sim.queue) == multiset(s.queue) - multiset{s.queue[0]} + Scheduled(s.queue[0].due, timers)
              && |f.events| == |notices|
              && (forall i :: 0 <= i < |notices| ==>
                    f.events[i].time == s.queue[0].due && f.events[i].notice == notices[i])
            case Crashes(notices) =>
              && Fire(m, s).Broke?
              && |Fire(m, s).events| == |notices|
              && (forall i :: 0 <= i < |notices| ==>
                    Fire(m, s).events[i].time == s.queue[0].due && Fire(m, s).events[i].notice == notices[i])
  {
    match m.react(s.env, s.queue[0].due, s.queue[0].task)
    case Continues(_, _, timers) => RestAndNewPending(s.queue, timers);
    case Crashes(_) =>
  }

  // How a call to `run` ends, with the events it passed to the sink. `Hangs` is a call that
  // never returns.
  datatype Outcome = Reached(sim: Sim, events: seq<SimEvent>) | Raised(events: seq<SimEvent>) | Hangs

  function Prefixed(first: seq<SimEvent>, rest: Outcome): Outcome {
    match rest
    case Reached(sim, events) => Reached(sim, first + events)
    case Raised(events) => Raised(first + events)
    case Hangs => Hangs
  }

  // The run within `fuel` firings; `Hangs` when that many are not enough.
  function Advance(m: Simulator, s: Sim, until: int, fuel: nat): Outcome
    decreases fuel
  {
    if !Due(s, until) then Reached(s.(now := until), [])
    else if fuel == 0 then Hangs
    else
      match Fire(m, s)
      case Broke(events) => Raised(events)
      case Fired(s', events) => Prefixed(events, Advance(m, s', until, fuel - 1))
  }

  /** `model.run(until=...)`. A time that is not in the future is refused with an error. */
  ghost function RunUntil(m: Simulator, s: Sim, until: int): (r: Outcome)
    ensures r.Reached? ==> s.now < until && r.sim.now == until
  {
    if until <= s.now then Raised([])
    else if exists fuel: nat :: Advance(m, s, until, fuel) != Hangs then
      var fuel: nat :| Advance(m, s, until, fuel) != Hangs;
      ReachedAtUntil(m, s, until, fuel);
      Advance(m, s, until, fuel)
    else Hangs
  }

  lemma {:induction false} ReachedAtUntil(m: Simulator, s: Sim, until: int, fuel: nat)
    ensures var r := Advance(m, s, until, fuel); r.Reached? ==> r.sim.now == until && !Due(r.sim, until)
    decreases fuel
  {
    if !Due(s, until) || fuel == 0 {
    } else {
      var f := Fire(m, s);
      if f.Fired? {
        ReachedAtUntil(m, f.sim, until, fuel - 1);
      }
    }
  }

  // More fuel does not change how a run ends.
  lemma {:induction false} MoreFuel(m: Simulator, s: Sim, until: int, fuel: nat, extra: nat)
    requires Advance(m, s, until, fuel) != Hangs
    ensures Advance(m, s, until, fuel + extra) == Advance(m, s, until, fuel)
    decreases fuel
  {
    if !Due(s, until) {
    } else {
      var f := Fire(m, s);
      if f.Fired? {
        MoreFuel(m, f.sim, until, fuel - 1, extra);
      }
    }
  }

  lemma EnoughFuel(m: Simulator, s: Sim, until: int, fuel: nat)
    requires s.now < until && Advance(m, s, until, fuel) != Hangs
    ensures RunUntil(m, s, until) == Advance(m, s, until, fuel)
  {
    var chosen: nat :| Advance(m, s, until, chosen) != Hangs && RunUntil(m, s, until) == Advance(m, s, until, chosen);
    if chosen <= fuel {
      MoreFuel(m, s, until, chosen, fuel - chosen);
    } else {
      MoreFuel(m, s, until, fuel, chosen - fuel);
    }
  }

  /*************************** Running to a and then to b is running to b ***************************/

  lemma {:induction false} ClockIsOverwritten(m: Simulator, s: Sim, now: int, until: int, fuel: nat)
    ensures Advance(m, s.(now := now), until, fuel) == Advance(m, s, until, fuel)
  {
  }

  lemma PrefixedTwice(x: seq<SimEvent>, y: seq<SimEvent>, rest: Outcome)
    ensures Prefixed(x, Prefixed(y, rest)) == Prefixed(x + y, rest)
  {
    match rest
    case Reached(_, events) => assert x + (y + events) == (x + y) + events;
    case Raised(events) => assert x + (y + events) == (x + y) + events;
    case Hangs =>
  }

  lemma NothingFirst(rest: Outcome)
    ensures Prefixed([], rest) == rest
  {
    match rest
    case Reached(_, events) => assert [] + events == events;
    case Raised(events) => assert [] + events == events;
    case Hangs =>
  }

  // The run to `a` ends, and the run to `b` ends there with the same error or goes on from there.
  ghost predicate SplitsAt(m: Simulator, s: Sim, a: int, b: int, fuel: nat) {
    match Advance(m, s, a, fuel)
    case Reached(mid, events) => Advance(m, s, b, fuel) == Prefixed(events, Advance(m, mid, b, fuel))
    case Raised(events) => Advance(m, s, b, fuel) == Raised(events)
    case Hangs => false
  }

  // What splits after the first firing splits before it.
  lemma FiringSplits(m: Simulator, s: Sim, a: int, b: int, fuel: nat)
    requires a <= b && Due(s, a) && 0 < fuel && Fire(m, s).Fired?
    requires Advance(m, Fire(m, s).sim, b, fuel - 1) != Hangs
    requires SplitsAt(m, Fire(m, s).sim, a, b, fuel - 1)
    ensures SplitsAt(m, s, a, b, fuel)
  {
    var f := Fire(m, s);
    var first := Advance(m, f.sim, a, fuel - 1);
    assert Advance(m, s, a, fuel) == Prefixed(f.events, first);
    assert Advance(m, s, b, fuel) == Prefixed(f.events, Advance(m, f.sim, b, fuel - 1));
    if first.Reached? {
      MoreFuel(m, first.sim, b, fuel - 1, 1);
      PrefixedTwice(f.events, first.events, Advance(m, first.sim, b, fuel));
    }
  }

  // A run to `b` that ends has a run to `a` inside it that ends, and goes on from there.
  lemma {:induction false} Splits(m: Simulator, s: Sim, a: int, b: int, fuel: nat)
    requires a <= b && Advance(m, s, b, fuel) != Hangs
    ensures SplitsAt(m, s, a, b, fuel)
    decreases fuel
  {
    if !Due(s, a) {
      ClockIsOverwritten(m, s, a, b, fuel);
      NothingFirst(Advance(m, s, b, fuel));
    } else {
      var f := Fire(m, s);
      if f.Fired? {
        Splits(m, f.sim, a, b, fuel - 1);
        FiringSplits(m, s, a, b, fuel);
      }
    }
  }

  // A run to `a` that ends, followed by a run to `b` that ends, is a run to `b` that ends.
  lemma {:induction false} Joins(m: Simulator, s: Sim, a: int, b: int, fuel: nat, more: nat)
    requires a <= b && Advance(m, s, a, fuel) != Hangs
    requires var r := Advance(m, s, a, fuel); r.Reached? ==> Advance(m, r.sim, b, more) != Hangs
    ensures Advance(m, s, b, fuel + more) != Hangs
    decreases fuel
  {
    if !Due(s, a) {
      ClockIsOverwritten(m, s, a, b, more);
      MoreFuel(m, s, b, more, fuel);
    } else {
      var f := Fire(m, s);
      if f.Fired? {
        Joins(m, f.sim, a, b, fuel - 1, more);
      }
    }
  }

  /** Running to `a` and then to `b` is running to `b`, however either of them ends: the same
      state, the same events in the same order, the same error, or no return at all. */
  lemma Composition(m: Simulator, s: Sim, a: int, b: int)
    requires s.now < a < b
    ensures RunUntil(m, s, b) == match RunUntil(m, s, a)
                                 case Reached(mid, events) => Prefixed(events, RunUntil(m, mid, b))
                                 case other => other
  {
    if RunUntil(m, s, b) != Hangs {
      var fuel: nat :| Advance(m, s, b, fuel) != Hangs;
      EnoughFuel(m, s, b, fuel);
      Splits(m, s, a, b, fuel);
      EnoughFuel(m, s, a, fuel);
      var first := RunUntil(m, s, a);
      if first.Reached? {
        EnoughFuel(m, first.sim, b, fuel);
      }
    } else if RunUntil(m, s, a) != Hangs {
      var fuel: nat :| Advance(m, s, a, fuel) != Hangs;
      EnoughFuel(m, s, a, fuel);
      var first := RunUntil(m, s, a);
      if first.Raised? {
        Joins(m, s, a, b, fuel, 0);
      } else if RunUntil(m, first.sim, b) != Hangs {
        var more: nat :| Advance(m, first.sim, b, more) != Hangs;
        Joins(m, s, a, b, fuel, more);
      }
    }
  }

  /************************************ Events come in time order ************************************/

  ghost predicate InTimeOrder(events: seq<SimEvent>) {
    forall i, j :: 0 <= i < j < |events| ==> events[i].time <= events[j].time
  }

  ghost predicate Within(events: seq<SimEvent>, from: int, to: int) {
    forall i :: 0 <= i < |events| ==> from <= events[i].time <= to
  }

  lemma {:induction false} AdvanceInOrder(m: Simulator, s: Sim, until: int, fuel: nat)
    requires Orderly(s) && s.now <= until
    ensures var r := Advance(m, s, until, fuel);
            r.Reached? ==> Orderly(r.sim) && InTimeOrder(r.events) && Within(r.events, s.now, until - 1)
    decreases fuel
  {
    if !Due(s, until) || fuel == 0 {
    } else {
      var f := Fire(m, s);
      if f.Fired? {
        assert NoneBefore(s.queue[1..], s.queue[0].due);
        AdvanceInOrder(m, f.sim, until, fuel - 1);
      }
    }
  }

  /** What one call reports is in time order, not before the clock it started from, and strictly
      before the clock it reaches; and what is left pending is not overdue at that clock. */
  lemma RunInOrder(m: Simulator, s: Sim, until: int)
    requires Orderly(s)
    ensures var r := RunUntil(m, s, until);
            r.Reached? ==> Orderly(r.sim) && InTimeOrder(r.events) && Within(r.events, s.now, until - 1)
  {
    if RunUntil(m, s, until).Reached? {
      var fuel: nat :| Advance(m, s, until, fuel) != Hangs;
      EnoughFuel(m, s, until, fuel);
      AdvanceInOrder(m, s, until, fuel);
    }
  }
}
