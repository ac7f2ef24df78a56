/**
 The worker as a program: the model with its event sink, the runner's chunk loop over a batch it
 shares with that sink, and the job that numbers and commits what the loop hands over.

 Each method is proved against `Drive`, the loop as a function, whose results are in `Runner`.
 Raising is returned: a runner that raises answers `Failed`.
 */
module WorkerLoop {
  import opened Wrappers
  import opened Json
  import opened Simulation
  import opened Runner
  import opened Runs
  import opened RunProperties

  /** The list that the model's sink appends to and the runner copies out and clears. */
  class EventBatch {
    var events: seq<SimEvent>

    constructor ()
      ensures events == []
    {
      events := [];
    }

    method Append(more: seq<SimEvent>)
      modifies this
      ensures events == old(events) + more
    {
      events := events + more;
    }

    method Clear()
      modifies this
      ensures events == []
    {
      events := [];
    }
  }

  // `reported` has been passed to the sink, and running on from here within `fuel` firings ends as
  // `whole` does.
  ghost predicate Underway(whole: Outcome, reported: seq<SimEvent>, m: Simulator, s: Sim, until: int, fuel: nat) {
    Advance(m, s, until, fuel) != Hangs && Prefixed(reported, Advance(m, s, until, fuel)) == whole
  }

  lemma SettingOut(m: Simulator, s: Sim, until: int) returns (fuel: nat)
    requires s.now < until && !RunUntil(m, s, until).Hangs?
    ensures Underway(RunUntil(m, s, until), [], m, s, until, fuel)
  {
    fuel :| Advance(m, s, until, fuel) != Hangs;
    EnoughFuel(m, s, until, fuel);
    NothingFirst(RunUntil(m, s, until));
  }

  lemma OneFiring(whole: Outcome, reported: seq<SimEvent>, m: Simulator, s: Sim, until: int, fuel: nat)
    requires Due(s, until) && Underway(whole, reported, m, s, until, fuel)
    ensures 0 < fuel
    ensures match Fire(m, s)
            case Broke(events) => whole == Raised(reported + events)
            case Fired(next, events) => Underway(whole, reported + events, m, next, until, fuel - 1)
  {
    match Fire(m, s)
    case Broke(events) =>
    case Fired(next, events) => PrefixedTwice(reported, events, Advance(m, next, until, fuel - 1));
  }

  lemma Arriving(whole: Outcome, reported: seq<SimEvent>, m: Simulator, s: Sim, until: int, fuel: nat)
    requires !Due(s, until) && Underway(whole, reported, m, s, until, fuel)
    ensures whole == Reached(s.(now := until), reported)
  {
  }

  /** A started model. */
  class Model {
    const simulator: Simulator
    const sink: EventBatch
    var sim: Sim
    ghost var calls: nat   // to `Run`

    constructor (simulator: Simulator, sink: EventBatch, env: Env, timers: seq<Timer>)
      ensures this.simulator == simulator && this.sink == sink && sim == Start(env, timers) && calls == 0
    {
      this.simulator := simulator;
      this.sink := sink;
      sim := Start(env, timers);
      calls := 0;
    }

    /** `model.run(until=...)`, for a call that returns or raises. */
    method Run(until: int) returns (raised: bool)
      requires !RunUntil(simulator, sim, until).Hangs?
      modifies this, sink
      ensures calls == old(calls) + 1
      ensures match old(RunUntil(simulator, sim, until))
              case Reached(sim', events) => !raised && sim == sim' && sink.events == old(sink.events) + events
              case Raised(events) => raised && sink.events == old(sink.events) + events
              case Hangs => false
    {
      calls := calls + 1;
      if until <= sim.now {
        return true;
      }
      ghost var whole, sunk, reported := RunUntil(simulator, sim, until), sink.events, [];
      ghost var fuel := SettingOut(simulator, sim, until);
      while sim.queue != [] && sim.queue[0].due < until
        invariant Underway(whole, reported, simulator, sim, until, fuel)
        invariant sink.events == sunk + reported && calls == old(calls) + 1
        decreases fuel
      {
        raised, reported := FireNext(until, whole, sunk, reported, fuel);
        if raised {
          return;
        }
        fuel := fuel - 1;
      }
      Arriving(whole, reported, simulator, sim, until, fuel);
      sim := sim.(now := until);
      raised := false;
    }

    /** Fires what is due next. */
    method FireNext(until: int, ghost whole: Outcome, ghost sunk: seq<SimEvent>, ghost reported: seq<SimEvent>,
                    ghost fuel: nat)
      returns (raised: bool, ghost reported': seq<SimEvent>)
      requires Due(sim, until) && Underway(whole, reported, simulator, sim, until, fuel)
      requires sink.events == sunk + reported
      modifies this`sim, sink
      ensures 0 < fuel && sink.events == sunk + reported'
      ensures if raised then whole == Raised(reported') else Underway(whole, reported', simulator, sim, until, fuel - 1)
    {
      OneFiring(whole, reported, simulator, sim, until, fuel);
      match Fire(simulator, sim)
      case Broke(events) =>
        sink.Append(events);
        raised, reported' := true, reported + events;
      case Fired(next, events) =>
        sim := next;
        sink.Append(events);
        raised, reported' := false, reported + events;
    }

    /** `model.log_current_state()`. */
    method LogCurrentState() returns (raised: bool)
      modifies sink
      ensures match simulator.locate(sim.env)
              case Report(notices) => !raised && sink.events == old(sink.events) + Stamp(sim.now, notices)
              case Unreportable => raised && sink.events == old(sink.events)
    {
      match simulator.locate(sim.env)
      case Report(notices) =>
        sink.Append(Stamp(sim.now, notices));
        raised := false;
      case Unreportable =>
        raised := true;
    }
  }

  /** A run's row and log as its own worker sees them, with the two callbacks the runner awaits.
      `polls` is what successive reads of the cancel flag find. */
  class RunJob {
    const order: Order
    const polls: Polls
    var asked: nat
    var status: Status
    var simTimeNow: Option<int>
    var hasError: bool
    var started: bool
    var finished: bool
    var log: Log
    var seqNo: nat
    ghost var deliveries: seq<Delivery>

    // The log is everything delivered, numbered from 0, and the clock is the last one delivered.
    ghost predicate Valid()
      reads this
    {
      && log == Numbered(Delivered(deliveries))
      && seqNo == |Delivered(deliveries)|
      && simTimeNow == if deliveries == [] then None else Some(deliveries[|deliveries| - 1].now)
    }

    constructor (order: Order, polls: Polls)
      ensures Valid() && deliveries == [] && asked == 0
      ensures this.order == order && this.polls == polls
      ensures status == QUEUED && !hasError && !started && !finished
    {
      this.order := order;
      this.polls := polls;
      asked, seqNo := 0, 0;
      status, hasError, started, finished := QUEUED, false, false, false;
      simTimeNow, log, deliveries := None, map[], [];
    }

    /** New rows and the clock, in one commit. */
    method OnChunk(now: int, events: seq<SimEvent>)
      requires Valid()
      modifies this`log, this`seqNo, this`simTimeNow, this`deliveries
      ensures Valid() && deliveries == old(deliveries) + [Delivery(now, events)]
    {
      if events != [] {
        NumberedAppend(Delivered(deliveries), events);
        log := log + Rows(seqNo, events);
        seqNo := seqNo + |events|;
      }
      simTimeNow := Some(now);
      DeliveredAppend(deliveries, Delivery(now, events));
      assert events == [] ==> Delivered(deliveries) + events == Delivered(deliveries);
      deliveries := deliveries + [Delivery(now, events)];
    }

    method IsCancelled() returns (cancelled: bool)
      modifies this`asked
      ensures cancelled == polls(old(asked)) && asked == old(asked) + 1
    {
      cancelled := polls(asked);
      asked := asked + 1;
    }
  }

  // The course of a run from its launch.
  ghost function CourseOf(setup: Setup, l: Launch, polls: Polls): Course {
    match l
    case Launched(sim, batch, target, chunk) => Drive(setup.simulator, sim, batch, target, chunk, polls, 0)
    case LaunchFailed => Course([], Failed)
  }

  // What has been delivered is what the reference run of this spec and seed reports up to the last clock
  // delivered, and then, if the course was completed, the locations there.
  ghost predicate CourseIsCut(m: Simulator, spec: Spec, seed: int, course: Course) {
    course.deliveries != [] ==>
      var now := LastNow(course);
      var cut := Reference(m, spec, seed, now);
      && 0 <= now && cut.Reached? && cut.sim.now == now
      && var report := m.locate(cut.sim.env);
      && (course.verdict == Completed ==>
            report.Report? && Delivered(course.deliveries) == cut.events + Stamp(now, report.notices))
      && (course.verdict != Completed ==> Delivered(course.deliveries) == cut.events)
  }

  lemma CoursesAreCuts(setup: Setup, spec: Spec, until: Option<int>, chunkSize: Option<int>, seed: int, polls: Polls)
    ensures var course := CourseOf(setup, Launching(setup, spec, until, chunkSize, seed), polls);
            && CourseIsCut(setup.simulator, spec, seed, course)
            && (course.verdict == Completed ==> course.deliveries != [])
            && (course.verdict == Completed && until.Some? ==> LastNow(course) == Max(0, until.value))
  {
    var l := Launching(setup, spec, until, chunkSize, seed);
    LaunchesAreOfSpecAndSeed(setup, spec, until, chunkSize, seed);
    if l.Launched? {
      ChunkedRefinesSingleShot(setup.simulator, l.sim, l.batch, l.target, l.chunk, polls, 0);
    }
  }

  // What is fixed while the loop runs, and where it is: `delivered` and `calls` to `model.run` made
  // so far.
  datatype Loop = Loop(m: Simulator, target: int, chunk: int, polls: Polls)
  datatype Point = Point(sim: Sim, batch: seq<SimEvent>, delivered: seq<Delivery>, calls: nat, asked: nat)

  // From here, the loop ends with this course and this many calls.
  ghost predicate Heading(l: Loop, p: Point, course: Course, calls: nat) {
    var rest := Drive(l.m, p.sim, p.batch, l.target, l.chunk, l.polls, p.asked);
    && course.deliveries == p.delivered + rest.deliveries && course.verdict == rest.verdict
    && calls == p.calls + CallsMade(l.m, p.sim, l.target, l.chunk, l.polls, p.asked)
  }

  lemma SettingOff(l: Loop, p: Point) returns (course: Course, calls: nat)
    ensures Heading(l, p, course, calls)
    ensures var rest := Drive(l.m, p.sim, p.batch, l.target, l.chunk, l.polls, p.asked);
            course == Course(p.delivered + rest.deliveries, rest.verdict)
    ensures calls == p.calls + CallsMade(l.m, p.sim, l.target, l.chunk, l.polls, p.asked)
  {
    var rest := Drive(l.m, p.sim, p.batch, l.target, l.chunk, l.polls, p.asked);
    course := Course(p.delivered + rest.deliveries, rest.verdict);
    calls := p.calls + CallsMade(l.m, p.sim, l.target, l.chunk, l.polls, p.asked);
  }

  // One turn of the loop: it is cancelled, or a chunk is delivered, or raises.
  ghost predicate Turned(l: Loop, p: Point, q: Point, ended: Option<Verdict>) {
    if l.polls(p.asked) then
      ended == Some(Cancelled) && q.calls == p.calls && q.delivered == p.delivered + [Delivery(p.sim.now, p.batch)]
    else
      match RunUntil(l.m, p.sim, Min(p.sim.now + l.chunk, l.target))
      case Reached(sim, events) =>
        && ended == None
        && q == Point(sim, [], p.delivered + [Delivery(sim.now, p.batch + events)], p.calls + 1, p.asked + 1)
      case Raised(_) => ended == Some(Failed) && q.calls == p.calls + 1 && q.delivered == p.delivered
      case Hangs => false
  }

  lemma OneTurn(l: Loop, p: Point, q: Point, ended: Option<Verdict>, course: Course, calls: nat)
    requires Heading(l, p, course, calls) && p.sim.now < l.target && Turned(l, p, q, ended)
    ensures ended.Some? ==> course == Course(q.delivered, ended.value) && calls == q.calls
    ensures ended.None? ==> p.sim.now < q.sim.now && Heading(l, q, course, calls)
  {
    if ended.None? {
      var turn := ChunkTurn(l.m, p.sim, p.batch, l.target, l.chunk);
      var next := Drive(l.m, q.sim, [], l.target, l.chunk, l.polls, q.asked);
      assert p.delivered + ([turn.delivery] + next.deliveries) == (p.delivered + [turn.delivery]) + next.deliveries;
    }
  }

  lemma CallEnds(l: Loop, p: Point, course: Course, calls: nat)
    requires Heading(l, p, course, calls) && p.sim.now < l.target && course.verdict != NoEnd
    ensures !l.polls(p.asked) ==> !RunUntil(l.m, p.sim, Min(p.sim.now + l.chunk, l.target)).Hangs?
  {
  }

  // The last flush.
  lemma LastTurn(l: Loop, p: Point, course: Course, calls: nat)
    requires Heading(l, p, course, calls) && l.target <= p.sim.now
    ensures calls == p.calls
    ensures match l.m.locate(p.sim.env)
            case Report(notices) =>
              course == Course(p.delivered + [Delivery(p.sim.now, p.batch + Stamp(p.sim.now, notices))], Completed)
            case Unreportable => course == Course(p.delivered, Failed)
  {
  }

  class SpurRunner {
    const setup: Setup
    const spec: Spec
    const until: Option<int>
    const chunkSize: Option<int>
    const seed: int

    constructor (setup: Setup, spec: Spec, until: Option<int>, chunkSize: Option<int>, seed: int)
      ensures this.setup == setup && this.spec == spec && this.until == until
      ensures this.chunkSize == chunkSize && this.seed == seed
    {
      this.setup := setup;
      this.spec := spec;
      this.until := until;
      this.chunkSize := chunkSize;
      this.seed := seed;
    }

    /** Runs a project to completion, cancellation or failure: one delivery to the job after each
        chunk and one at the end, which are together the course that `Drive` describes. */
    method Run(job: RunJob) returns (verdict: Verdict)
      requires job.Valid() && job.deliveries == [] && job.asked == 0
      requires CourseOf(setup, Launching(setup, spec, until, chunkSize, seed), job.polls).verdict != NoEnd
      modifies job`asked, job`log, job`seqNo, job`simTimeNow, job`deliveries
      ensures job.Valid()
      ensures Course(job.deliveries, verdict)
              == CourseOf(setup, Launching(setup, spec, until, chunkSize, seed), job.polls)
      ensures CourseIsCut(setup.simulator, spec, seed, Course(job.deliveries, verdict))
    {
      CoursesAreCuts(setup, spec, until, chunkSize, seed, job.polls);
      var batch := new EventBatch();
      match setup.simulator.build(spec, seed) {
        case Unbuildable => return Failed;
        case Built(env, notices, timers) =>
          var model := new Model(setup.simulator, batch, env, timers);
          batch.Append(Stamp(0, notices));
          assert batch.events == Stamp(0, notices);

          var target := Target(until, spec, setup.horizon);
          if target.None? { return Failed; }
          var chunk := ChunkSize(chunkSize, target.value, setup.chunkCount);
          if chunk.None? { return Failed; }
          verdict := RunChunks(job, model, batch, target.value, chunk.value);
      }
    }

    // Where the loop is.
    ghost function At(job: RunJob, model: Model, batch: EventBatch): Point
      reads job, model, batch
    {
      Point(model.sim, batch.events, job.deliveries, model.calls, job.asked)
    }

    /** The loop of `Run` and its last flush. */
    method RunChunks(job: RunJob, model: Model, batch: EventBatch, target: int, chunk: int) returns (verdict: Verdict)
      requires job.Valid() && model.sink == batch
      requires Drive(model.simulator, model.sim, batch.events, target, chunk, job.polls, job.asked).verdict != NoEnd
      modifies model, batch, job`asked, job`log, job`seqNo, job`simTimeNow, job`deliveries
      ensures job.Valid()
      ensures var rest := old(Drive(model.simulator, model.sim, batch.events, target, chunk, job.polls, job.asked));
              verdict == rest.verdict && job.deliveries == old(job.deliveries) + rest.deliveries
      ensures model.calls
              == old(model.calls + CallsMade(model.simulator, model.sim, target, chunk, job.polls, job.asked))
    {
      ghost var l := Loop(model.simulator, target, chunk, job.polls);
      ghost var course, calls := SettingOff(l, At(job, model, batch));
      while model.sim.now < target
        invariant job.Valid() && Heading(l, At(job, model, batch), course, calls)
        decreases target - model.sim.now
      {
        ghost var p := At(job, model, batch);
        CallEnds(l, p, course, calls);
        var ended := TakeTurn(job, model, batch, target, chunk);
        OneTurn(l, p, At(job, model, batch), ended, course, calls);
        if ended.Some? {
          return ended.value;
        }
      }
      LastTurn(l, At(job, model, batch), course, calls);
      verdict := FinishUp(job, model, batch);
    }

    /** One turn of the loop: poll, and unless cancelled run a chunk. */
    method TakeTurn(job: RunJob, model: Model, batch: EventBatch, target: int, chunk: int)
      returns (ended: Option<Verdict>)
      requires job.Valid() && model.sink == batch
      requires !job.polls(job.asked) ==>
                 !RunUntil(model.simulator, model.sim, Min(model.sim.now + chunk, target)).Hangs?
      modifies model, batch, job`asked, job`log, job`seqNo, job`simTimeNow, job`deliveries
      ensures job.Valid()
      ensures Turned(Loop(model.simulator, target, chunk, job.polls), old(At(job, model, batch)), At(job, model, batch),
                     ended)
    {
      var cancelled := job.IsCancelled();
      if cancelled {
        job.OnChunk(model.sim.now, batch.events);
        return Some(Cancelled);
      }
      var raised := RunChunk(job, model, batch, Min(model.sim.now + chunk, target));
      return if raised then Some(Failed) else None;
    }

    /** Run to the next checkpoint, deliver, clear the batch. */
    method RunChunk(job: RunJob, model: Model, batch: EventBatch, nextCheckpoint: int) returns (raised: bool)
      requires job.Valid() && model.sink == batch && !RunUntil(model.simulator, model.sim, nextCheckpoint).Hangs?
      modifies model, batch, job`log, job`seqNo, job`simTimeNow, job`deliveries
      ensures job.Valid() && model.calls == old(model.calls) + 1
      ensures match old(RunUntil(model.simulator, model.sim, nextCheckpoint))
              case Reached(sim, events) =>
                && !raised && model.sim == sim && batch.events == []
                && job.deliveries == old(job.deliveries) + [Delivery(sim.now, old(batch.events) + events)]
              case Raised(_) => raised && job.deliveries == old(job.deliveries)
              case Hangs => false
    {
      raised := model.Run(nextCheckpoint);
      if raised {
        return;
      }
      job.OnChunk(model.sim.now, batch.events);
      batch.Clear();
    }

    /** After the loop: the current locations, and the last flush. */
    method FinishUp(job: RunJob, model: Model, batch: EventBatch) returns (verdict: Verdict)
      requires job.Valid() && model.sink == batch
      modifies batch, job`log, job`seqNo, job`simTimeNow, job`deliveries
      ensures job.Valid()
      ensures match model.simulator.locate(model.sim.env)
              case Report(notices) =>
                && verdict == Completed
                && job.deliveries == old(job.deliveries)
                                     + [Delivery(model.sim.now, old(batch.events) + Stamp(model.sim.now, notices))]
              case Unreportable => verdict == Failed && job.deliveries == old(job.deliveries)
    {
      var raised := model.LogCurrentState();
      if raised {
        return Failed;
      }
      job.OnChunk(model.sim.now, batch.events);
      return Completed;
    }
  }

  // The log of an ended run of this spec and seed: the reference run up to the clock, with the locations
  // there behind it if the run completed.
  ghost predicate IsRunOf(m: Simulator, spec: Spec, seed: int, status: Status, clock: Option<int>, log: Log) {
    match clock
    case None => log == map[] && status != COMPLETED
    case Some(now) =>
      && 0 <= now
      && if status == COMPLETED then WithLocations(m, spec, seed, now, now, log) else Bare(m, spec, seed, now, log)
  }

  /** The job function, for a run that comes to an end: whatever happens the row does not stay
      RUNNING, its log is what was delivered, and how it ended is how its course ended. `live` is the
      project's spec now, and `entropy` the seed drawn, for rows that record neither. */
  method RunSimulation(setup: Setup, job: RunJob, live: Spec, entropy: int)
    requires job.Valid() && job.deliveries == [] && job.asked == 0 && job.status == QUEUED && !job.hasError
    requires CourseOf(setup, LaunchOf(setup, JobOf(job.order, live, entropy)), job.polls).verdict != NoEnd
    modifies job
    ensures var course := CourseOf(setup, LaunchOf(setup, JobOf(job.order, live, entropy)), job.polls);
            && job.deliveries == course.deliveries
            && job.log == Numbered(Delivered(course.deliveries))
            && job.simTimeNow == (if course.deliveries == [] then None else Some(LastNow(course)))
            && job.status == FinalStatus(course.verdict)
            && job.started && job.finished && (job.hasError <==> job.status == FAILED)
    ensures var spec := (match job.order.snapshot case Some(recorded) => recorded case None => live);
            var seed := (match job.order.seed case Some(recorded) => recorded case None => entropy);
            IsRunOf(setup.simulator, spec, seed, job.status, job.simTimeNow, job.log)
    ensures job.status == COMPLETED && job.order.untilTarget.Some? ==>
              job.simTimeNow == Some(Max(0, job.order.untilTarget.value))
  {
    CoursesAreCuts(setup, job.order.snapshot.GetOr(live), WorkerUntil(job.order.untilTarget, job.order.requestedUntil),
                   job.order.chunkSize, job.order.seed.GetOr(entropy), job.polls);
    var spec := job.order.snapshot.GetOr(live);
    job.status := RUNNING;
    job.started := true;
    var runner := new SpurRunner(setup, spec, WorkerUntil(job.order.untilTarget, job.order.requestedUntil),
                                 job.order.chunkSize, job.order.seed.GetOr(entropy));
    ghost var course := CourseOf(setup, LaunchOf(setup, JobOf(job.order, live, entropy)), job.polls);
    var outcome := runner.Run(job);
    assert course == Course(job.deliveries, outcome);
    if outcome == Failed {
      job.status := FAILED;
      job.hasError := true;
      job.finished := true;
      return;
    }
    job.status := if outcome == Cancelled then CANCELLED else COMPLETED;
    job.finished := true;
  }

  /** So a run that nobody cancels, and whose model can be run in one piece to its target and
      report its locations there, is COMPLETED with exactly those events and locations as its log. */
  lemma UncancelledCourse(setup: Setup, l: Launch, polls: Polls)
    requires l.Launched? && (0 < l.chunk || l.target <= l.sim.now) && forall k: nat :: !polls(k)
    requires var whole := Uninterrupted(setup.simulator, l.sim, l.batch, l.target);
             whole.Reached? && setup.simulator.locate(whole.sim.env).Report?
    ensures var whole := Uninterrupted(setup.simulator, l.sim, l.batch, l.target);
            var course := CourseOf(setup, l, polls);
            && FinalStatus(course.verdict) == COMPLETED
            && course.deliveries != [] && LastNow(course) == whole.sim.now
            && Delivered(course.deliveries)
               == whole.events + Stamp(whole.sim.now, setup.simulator.locate(whole.sim.env).notices)
  {
    EndsAsSingleShot(setup.simulator, l.sim, l.batch, l.target, l.chunk, polls, 0);
    ChunkedRefinesSingleShot(setup.simulator, l.sim, l.batch, l.target, l.chunk, polls, 0);
  }

  /************************** The program is one of the machine's executions **************************/

  lemma RowsAppend(log: Log, first: nat, a: seq<SimEvent>, b: seq<SimEvent>)
    ensures (log + Rows(first, a)) + Rows(first + |a|, b) == log + Rows(first, a + b)
  {
  }

  lemma TwoSteps(setup: Setup, c: Cell, a: CellAct, b: CellAct, rest: seq<CellAct>)
    ensures CellAfter(setup, c, [a, b] + rest) == CellAfter(setup, CellStep(setup, CellStep(setup, c, a), b), rest)
  {
    assert ([a, b] + rest)[1..] == [b] + rest;
    assert ([b] + rest)[1..] == rest;
  }

  // What the loop, taken from `c`, has come to when it returns.
  ghost predicate LoopEnds(c: Cell, d: Cell, seqNo: nat, course: Course) {
    && d.worker == Returned(course.verdict)
    && d.log == c.log + Rows(seqNo, Delivered(course.deliveries))
    && d.row.simTimeNow == (if course.deliveries == [] then c.row.simTimeNow else Some(LastNow(course)))
    && d.row.status == c.row.status && d.row.hasError == c.row.hasError && d.row.started == c.row.started
  }

  lemma DeliveredLater(log: Log, seqNo: nat, first: Delivery, later: seq<Delivery>)
    ensures (log + Rows(seqNo, first.events)) + Rows(seqNo + |first.events|, Delivered(later))
            == log + Rows(seqNo, Delivered([first] + later))
  {
    DeliveredFirst(first, later);
    RowsAppend(log, seqNo, first.events, Delivered(later));
  }

  // One chunk has been delivered between two tops of the loop.
  ghost predicate OneChunkOn(c: Cell, next: Cell, delivery: Delivery) {
    && c.worker.AtTop? && next.worker.AtTop? && !next.row.cancelRequested
    && next.log == c.log + Rows(c.worker.frame.seqNo, delivery.events)
    && next.row == c.row.(simTimeNow := Some(delivery.now))
    && next.worker.frame.seqNo == c.worker.frame.seqNo + |delivery.events|
    && next.worker.frame.target == c.worker.frame.target
    && c.worker.frame.sim.now < next.worker.frame.sim.now
  }

  lemma LoopGoesOn(c: Cell, next: Cell, d: Cell, first: Delivery, later: Course)
    requires OneChunkOn(c, next, first) && LoopEnds(next, d, next.worker.frame.seqNo, later)
    ensures LoopEnds(c, d, c.worker.frame.seqNo, Course([first] + later.deliveries, later.verdict))
  {
    var course := Course([first] + later.deliveries, later.verdict);
    assert d.log == c.log + Rows(c.worker.frame.seqNo, Delivered(course.deliveries)) by {
      DeliveredLater(c.log, c.worker.frame.seqNo, first, later.deliveries);
    }
    if later.deliveries == [] {
      assert course.deliveries == [first];
    } else {
      assert course.deliveries[|course.deliveries| - 1] == later.deliveries[|later.deliveries| - 1];
    }
  }

  // The course from the top of the loop.
  ghost function CourseFrom(setup: Setup, c: Cell, polls: Polls, asked: nat): Course
    requires c.worker.AtTop?
  {
    var f := c.worker.frame;
    Drive(setup.simulator, f.sim, f.batch, f.target, f.chunk, polls, asked)
  }

  lemma NoRows(log: Log, first: nat)
    ensures log + Rows(first, []) == log
  {
    assert Rows(first, []) == map[];
  }

  lemma LastFlush(setup: Setup, c: Cell, polls: Polls, asked: nat)
    requires c.worker.AtTop? && c.worker.frame.target <= c.worker.frame.sim.now
    ensures LoopEnds(c, CellStep(setup, c, Deliver), c.worker.frame.seqNo, CourseFrom(setup, c, polls, asked))
  {
    DeliveredSingle(CourseFrom(setup, c, polls, asked));
    NoRows(c.log, c.worker.frame.seqNo);
  }

  lemma CancelFlush(setup: Setup, c: Cell, polls: Polls, asked: nat)
    requires c.worker.AtTop? && c.worker.frame.sim.now < c.worker.frame.target && polls(asked)
    ensures LoopEnds(c, CellStep(setup, CellStep(setup, CellStep(setup, c, RequestCancel), Poll), Deliver),
                     c.worker.frame.seqNo, CourseFrom(setup, c, polls, asked))
  {
    DeliveredSingle(CourseFrom(setup, c, polls, asked));
  }

  lemma ChunkRaises(setup: Setup, c: Cell, polls: Polls, asked: nat)
    requires c.worker.AtTop? && c.worker.frame.sim.now < c.worker.frame.target
    requires !c.row.cancelRequested && !polls(asked)
    requires var f := c.worker.frame; ChunkTurn(setup.simulator, f.sim, f.batch, f.target, f.chunk).Aborted?
    ensures LoopEnds(c, CellStep(setup, CellStep(setup, c, Poll), Deliver), c.worker.frame.seqNo,
                     CourseFrom(setup, c, polls, asked))
  {
    NoRows(c.log, c.worker.frame.seqNo);
    DeliveredSingle(CourseFrom(setup, c, polls, asked));
  }

  lemma ChunkGoesThrough(setup: Setup, c: Cell, polls: Polls, asked: nat) returns (next: Cell, delivery: Delivery)
    requires c.worker.AtTop? && c.worker.frame.sim.now < c.worker.frame.target
    requires !c.row.cancelRequested && !polls(asked)
    requires var f := c.worker.frame; ChunkTurn(setup.simulator, f.sim, f.batch, f.target, f.chunk).Flushed?
    ensures next == CellStep(setup, CellStep(setup, c, Poll), Deliver)
    ensures OneChunkOn(c, next, delivery)
    ensures var later := CourseFrom(setup, next, polls, asked + 1);
            CourseFrom(setup, c, polls, asked) == Course([delivery] + later.deliveries, later.verdict)
  {
    var f := c.worker.frame;
    next := CellStep(setup, CellStep(setup, c, Poll), Deliver);
    delivery := ChunkTurn(setup.simulator, f.sim, f.batch, f.target, f.chunk).delivery;
  }

  lemma ChunkHangs(setup: Setup, c: Cell, polls: Polls, asked: nat)
    requires c.worker.AtTop? && c.worker.frame.sim.now < c.worker.frame.target && !polls(asked)
    requires var f := c.worker.frame; ChunkTurn(setup.simulator, f.sim, f.batch, f.target, f.chunk).Endless?
    ensures CourseFrom(setup, c, polls, asked).verdict == NoEnd
  {
  }

  // From the top of the loop, the machine can take the steps that the program takes.
  lemma {:induction false} LoopSteps(setup: Setup, c: Cell, polls: Polls, asked: nat) returns (acts: seq<CellAct>)
    requires c.worker.AtTop? && !c.row.cancelRequested && CourseFrom(setup, c, polls, asked).verdict != NoEnd
    ensures LoopEnds(c, CellAfter(setup, c, acts), c.worker.frame.seqNo, CourseFrom(setup, c, polls, asked))
    ensures forall i :: 0 <= i < |acts| ==> acts[i] in {RequestCancel, Poll, Deliver}
    decreases Max(0, c.worker.frame.target - c.worker.frame.sim.now)
  {
    var f := c.worker.frame;
    if f.target <= f.sim.now {
      LastFlush(setup, c, polls, asked);
      acts := [] + [Deliver];
      OneMore(setup, c, [], Deliver);
    } else if polls(asked) {
      CancelFlush(setup, c, polls, asked);
      acts := ([RequestCancel, Poll] + []) + [Deliver];
      TwoSteps(setup, c, RequestCancel, Poll, []);
      OneMore(setup, c, [RequestCancel, Poll] + [], Deliver);
    } else {
      match ChunkTurn(setup.simulator, f.sim, f.batch, f.target, f.chunk)
      case Aborted =>
        ChunkRaises(setup, c, polls, asked);
        acts := [Poll, Deliver] + [];
        TwoSteps(setup, c, Poll, Deliver, []);
      case Endless =>
        ChunkHangs(setup, c, polls, asked);
      case Flushed(_, _) =>
        var next, delivery := ChunkGoesThrough(setup, c, polls, asked);
        var rest := LoopSteps(setup, next, polls, asked + 1);
        LoopGoesOn(c, next, CellAfter(setup, next, rest), delivery, CourseFrom(setup, next, polls, asked + 1));
        acts := [Poll, Deliver] + rest;
        TwoSteps(setup, c, Poll, Deliver, rest);
    }
  }

  // A run that has been submitted, with its job enqueued, and that nothing has happened to since.
  predicate Waiting(c: Cell) {
    && c.row == Row(c.row.order, QUEUED, None, c.row.jobId, false, false, false, false)
    && c.log == map[] && c.worker == Away && c.enqueued && c.job.None?
  }

  // The row and log of a run that has ended as this course did.
  ghost predicate HasEndedAs(d: Cell, course: Course) {
    && d.row.status == FinalStatus(course.verdict)
    && d.log == Numbered(Delivered(course.deliveries))
    && d.row.simTimeNow == (if course.deliveries == [] then None else Some(LastNow(course)))
    && d.row.started && d.row.finished && (d.row.hasError <==> d.row.status == FAILED)
  }

  // What a worker and a canceller may do to a run that has been fetched.
  predicate AfterFetch(act: CellAct) {
    act in {Begin, LaunchModel, Poll, Deliver, Settle, RequestCancel}
  }

  lemma StepsOfTheCourse(setup: Setup, c: Cell, live: Spec, entropy: int, polls: Polls) returns (acts: seq<CellAct>)
    requires Waiting(c)
    requires CourseOf(setup, LaunchOf(setup, JobOf(c.row.order, live, entropy)), polls).verdict != NoEnd
    ensures var course := CourseOf(setup, LaunchOf(setup, JobOf(c.row.order, live, entropy)), polls);
            HasEndedAs(CellAfter(setup, CellStep(setup, c, Fetch(live, entropy)), acts), course)
    ensures forall i :: 0 <= i < |acts| ==> AfterFetch(acts[i])
  {
    var course := CourseOf(setup, LaunchOf(setup, JobOf(c.row.order, live, entropy)), polls);
    var c2 := CellStep(setup, c, Fetch(live, entropy));
    var c4 := CellStep(setup, CellStep(setup, c2, Begin), LaunchModel);
    var loop: seq<CellAct> := [];
    if c4.worker.AtTop? {
      loop := LoopSteps(setup, c4, polls, 0);
    }
    acts := [Begin, LaunchModel] + (loop + [Settle]);
    TwoSteps(setup, c2, Begin, LaunchModel, loop + [Settle]);
    OneMore(setup, c4, loop, Settle);
    LoopSettles(setup, c, CellAfter(setup, c4, loop), course);
  }

  // A run whose course has been delivered ends as the course did when its status is committed.
  lemma LoopSettles(setup: Setup, c: Cell, d: Cell, course: Course)
    requires Waiting(c) && d.worker == Returned(course.verdict) && d.row.started && !d.row.hasError
    requires d.log == c.log + Rows(0, Delivered(course.deliveries))
    requires d.row.simTimeNow == if course.deliveries == [] then None else Some(LastNow(course))
    ensures course.verdict != NoEnd ==> HasEndedAs(CellStep(setup, d, Settle), course)
  {
    assert map[] + Rows(0, Delivered(course.deliveries)) == Numbered(Delivered(course.deliveries));
  }

  /** What `RunSimulation` leaves behind is what the machine of a run leaves behind after some
      sequence of its steps, with cancellation requested just when the program is told of it: so all
      that holds of every sequence of steps holds of the program. */
  lemma TheMachineTakesThisCourse(setup: Setup, order: Order, live: Spec, entropy: int, polls: Polls)
    returns (acts: seq<CellAct>)
    requires CourseOf(setup, LaunchOf(setup, JobOf(order, live, entropy)), polls).verdict != NoEnd
    ensures HasEndedAs(CellAfter(setup, NewCell(order), acts),
                       CourseOf(setup, LaunchOf(setup, JobOf(order, live, entropy)), polls))
  {
    var rest := StepsOfTheCourse(setup, CellStep(setup, NewCell(order), Enqueue), live, entropy, polls);
    acts := [Enqueue, Fetch(live, entropy)] + rest;
    TwoSteps(setup, NewCell(order), Enqueue, Fetch(live, entropy), rest);
  }

  lemma OneMore(setup: Setup, c: Cell, acts: seq<CellAct>, last: CellAct)
    ensures CellAfter(setup, c, acts + [last]) == CellStep(setup, CellAfter(setup, c, acts), last)
  {
    InTwoParts(setup, c, acts, [last]);
    assert [last][1..] == [];
  }

  /*************************** Locations are committed before the status is ***************************/

  // Some of the log of a run that is still RUNNING is not in its event stream.
  ghost predicate LocatedWhileRunning(setup: Setup, job: Job, c: Cell) {
    && c.row.status == RUNNING && c.job == Some(job) && c.row.simTimeNow.Some?
    && LaunchOf(setup, job).Launched?
    && !Bare(setup.simulator, job.spec, job.seed, c.row.simTimeNow.value, c.log)
  }

  // These steps of a new run lead there.
  ghost predicate LeadsToLocations(setup: Setup, order: Order, job: Job, acts: seq<CellAct>) {
    LocatedWhileRunning(setup, job, CellAfter(setup, NewCell(order), acts))
  }

  // The model can be run to its target, where it has locations to report.
  ghost predicate ReportsLocations(setup: Setup, job: Job) {
    var l := LaunchOf(setup, job);
    && l.Launched? && (l.target <= 0 || 0 < l.chunk)
    && var whole := Uninterrupted(setup.simulator, l.sim, l.batch, l.target);
    && whole.Reached?
    && var report := setup.simulator.locate(whole.sim.env);
    && report.Report? && report.notices != []
  }

  lemma OnlyIfItReports(setup: Setup, job: Job, c: Cell)
    requires CellInv(setup, c) && LocatedWhileRunning(setup, job, c)
    ensures ReportsLocations(setup, job)
  {
    WhereLocationsAre(setup, c);
    var cut := Stream(setup, job, c.row.simTimeNow.value);
    StreamIsReference(setup, job, c.row.simTimeNow.value);
    assert cut.events + [] == cut.events;
    assert c.worker == Returned(Completed);
  }

  lemma LocationsAreNotBare(setup: Setup, job: Job, log: Log)
    requires ReportsLocations(setup, job)
    requires var l := LaunchOf(setup, job);
             var whole := Uninterrupted(setup.simulator, l.sim, l.batch, l.target);
             log == map[] + Rows(0, whole.events + Stamp(whole.sim.now, setup.simulator.locate(whole.sim.env).notices))
    ensures var l := LaunchOf(setup, job);
            var now := Uninterrupted(setup.simulator, l.sim, l.batch, l.target).sim.now;
            !Bare(setup.simulator, job.spec, job.seed, now, log)
  {
    var l := LaunchOf(setup, job);
    var whole := Uninterrupted(setup.simulator, l.sim, l.batch, l.target);
    var located := whole.events + Stamp(whole.sim.now, setup.simulator.locate(whole.sim.env).notices);
    assert Stream(setup, job, whole.sim.now) == whole;
    StreamIsReference(setup, job, whole.sim.now);
    assert log == Numbered(located);
    if Numbered(located) == Numbered(whole.events) {
      NumberedIsInjective(located, whole.events);
    }
  }

  // The steps of an uncancelled run up to its last delivery.
  lemma LoopToLocations(setup: Setup, job: Job, c: Cell) returns (acts: seq<CellAct>)
    requires ReportsLocations(setup, job) && CellInv(setup, c)
    requires c.job == Some(job) && c.row.status == RUNNING && !c.row.cancelRequested && c.log == map[]
    requires var l := LaunchOf(setup, job); c.worker == AtTop(Frame(l.sim, l.batch, l.target, l.chunk, 0))
    ensures LocatedWhileRunning(setup, job, CellAfter(setup, c, acts))
  {
    var polls: Polls := k => false;
    UncancelledCourse(setup, LaunchOf(setup, job), polls);
    acts := LoopSteps(setup, c, polls, 0);
    LocationsAreNotBare(setup, job, CellAfter(setup, c, acts).log);
    RunsOnlyMoveForward(setup, c, acts);
  }

  lemma StepsToLocations(setup: Setup, order: Order, live: Spec, entropy: int) returns (acts: seq<CellAct>)
    requires ReportsLocations(setup, JobOf(order, live, entropy))
    ensures LocatedWhileRunning(setup, JobOf(order, live, entropy), CellAfter(setup, NewCell(order), acts))
  {
    var c0 := NewCell(order);
    var first := [Enqueue, Fetch(live, entropy)] + ([Begin, LaunchModel] + []);
    var c2 := CellStep(setup, CellStep(setup, c0, Enqueue), Fetch(live, entropy));
    TwoSteps(setup, c0, Enqueue, Fetch(live, entropy), [Begin, LaunchModel] + []);
    TwoSteps(setup, c2, Begin, LaunchModel, []);
    NewCellInv(setup, order);
    InvAfter(setup, c0, first);
    var loop := LoopToLocations(setup, JobOf(order, live, entropy), CellAfter(setup, c0, first));
    acts := first + loop;
    InTwoParts(setup, c0, first, loop);
  }

  /** The final locations are committed before the status is. So "only a completed run carries them"
      fails for exactly the jobs whose model can be run to its target in chunks and has locations to
      report there: each of them passes through a committed state in which it is still RUNNING and
      its log already holds them. */
  lemma LocationsPrecedeCompletion(setup: Setup, order: Order, live: Spec, entropy: int)
    ensures (exists acts :: LeadsToLocations(setup, order, JobOf(order, live, entropy), acts))
            <==> ReportsLocations(setup, JobOf(order, live, entropy))
  {
    var job := JobOf(order, live, entropy);
    if ReportsLocations(setup, job) {
      var acts := StepsToLocations(setup, order, live, entropy);
      assert LeadsToLocations(setup, order, job, acts);
    } else {
      forall acts ensures !LeadsToLocations(setup, order, job, acts) {
        NewCellInv(setup, order);
        InvAfter(setup, NewCell(order), acts);
        if LeadsToLocations(setup, order, job, acts) {
          OnlyIfItReports(setup, job, CellAfter(setup, NewCell(order), acts));
        }
      }
    }
  }
}
