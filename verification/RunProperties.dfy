/**
 What the invariant of a run means for whoever reads its row and log: how it moves over any
 sequence of steps, how cancellation is bounded, how its events are ordered in time, and when two
 runs replay each other.
 */
module RunProperties {
  import opened Wrappers
  import opened Json
  import opened Simulation
  import opened Runner
  import opened Runs

  // A cell after a sequence of steps, in the order given.
  ghost function CellAfter(setup: Setup, c: Cell, acts: seq<CellAct>): Cell
    decreases |acts|
  {
    if acts == [] then c else CellAfter(setup, CellStep(setup, c, acts[0]), acts[1..])
  }

  lemma {:induction false} InTwoParts(setup: Setup, c: Cell, first: seq<CellAct>, rest: seq<CellAct>)
    ensures CellAfter(setup, c, first + rest) == CellAfter(setup, CellAfter(setup, c, first), rest)
    decreases |first|
  {
    if first == [] {
      assert [] + rest == rest;
    } else {
      assert (first + rest)[1..] == first[1..] + rest;
      InTwoParts(setup, CellStep(setup, c, first[0]), first[1..], rest);
    }
  }

  lemma {:induction false} InvAfter(setup: Setup, c: Cell, acts: seq<CellAct>)
    requires CellInv(setup, c)
    ensures CellInv(setup, CellAfter(setup, c, acts))
    decreases |acts|
  {
    if acts == [] {
    } else {
      StepKeepsCellInv(setup, c, acts[0]);
      InvAfter(setup, CellStep(setup, c, acts[0]), acts[1..]);
    }
  }

  /***************************************** The life of a run *****************************************/

  // Later rows come behind earlier ones, and no row is changed or lost.
  ghost predicate LogExtends(a: Log, b: Log) {
    && (forall k :: k in a ==> k in b && b[k] == a[k])
    && (forall j, k :: j in a && k in b && k !in a ==> j < k)
  }

  function Rank(status: Status): nat {
    match status
    case QUEUED => 0
    case RUNNING => 1
    case _ => 2
  }

  /** Everything about a run that only ever moves one way. */
  ghost predicate Forward(a: Cell, b: Cell) {
    && b.row.order == a.row.order
    && Rank(a.row.status) <= Rank(b.row.status)
    && (a.row.cancelRequested ==> b.row.cancelRequested)
    && (a.row.started ==> b.row.started)
    && (a.row.finished ==> b.row.finished)
    && (a.row.simTimeNow.Some? ==> b.row.simTimeNow.Some? && a.row.simTimeNow.value <= b.row.simTimeNow.value)
    && LogExtends(a.log, b.log)
    && (a.job.Some? ==> b.job == a.job)
    && (Terminal(a.row.status) ==>
          && b.row == a.row.(jobId := b.row.jobId, cancelRequested := b.row.cancelRequested)
          && b.log == a.log && b.worker == a.worker)
  }

  // The status edges one step can take.
  ghost predicate StatusEdge(a: Status, b: Status) {
    a == b || (a == QUEUED && b == RUNNING) || (a == RUNNING && Terminal(b))
  }

  lemma NumberedExtends(a: seq<SimEvent>, b: seq<SimEvent>)
    ensures LogExtends(Numbered(a), Numbered(a + b))
  {
  }

  // The two logs of one job at two clocks: the earlier is a prefix of the later.
  lemma StreamExtends(setup: Setup, job: Job, a: int, b: int)
    requires LaunchOf(setup, job).Launched? && 0 <= a <= b
    requires Stream(setup, job, a).Reached? && Stream(setup, job, a).sim.now == a && Stream(setup, job, b).Reached?
    ensures Stream(setup, job, a).events <= Stream(setup, job, b).events
  {
    var l := LaunchOf(setup, job);
    Resume(setup.simulator, l.sim, l.batch, a, b);
  }

  // The log of a run at a later clock extends the one at an earlier clock.
  lemma LaterLogExtends(setup: Setup, job: Job, t: Option<int>, log: Log, t': int, located: bool, log': Log)
    requires LogIsStream(setup, job, t, false, log) && LogIsStream(setup, job, Some(t'), located, log')
    requires t.Some? ==> t.value <= t'
    ensures LogExtends(log, log')
  {
    if t.Some? {
      StreamExtends(setup, job, t.value, t');
      var early, late := Stream(setup, job, t.value).events, Stream(setup, job, t').events;
      var tail := if located then Stamp(t', setup.simulator.locate(Stream(setup, job, t').sim.env).notices) else [];
      assert early + [] == early;
      assert late + tail == early + ((late + tail)[|early|..]);
      NumberedExtends(early, (late + tail)[|early|..]);
    }
  }

  lemma DeliverMovesForward(setup: Setup, c: Cell)
    requires CellInv(setup, c)
    ensures Forward(c, DeliverStep(setup, c))
    ensures DeliverStep(setup, c).row.status == c.row.status
  {
    DeliverKeepsCellInv(setup, c);
    DeliverFrame(setup, c);
    var d := DeliverStep(setup, c);
    if d.row.simTimeNow.Some? && d.log != c.log {
      LaterLogExtends(setup, c.job.value, c.row.simTimeNow, c.log, d.row.simTimeNow.value, Located(d), d.log);
    }
  }

  // A delivery writes rows and the clock, which does not go back; nothing else of the row changes.
  lemma DeliverFrame(setup: Setup, c: Cell)
    requires CellInv(setup, c)
    ensures var d := DeliverStep(setup, c);
            && d.row == c.row.(simTimeNow := d.row.simTimeNow) && d.job == c.job
            && (c.row.simTimeNow.Some? ==> d.row.simTimeNow.Some? && c.row.simTimeNow.value <= d.row.simTimeNow.value)
            && (d.log != c.log ==> c.job.Some? && !Located(c) && d.row.simTimeNow.Some?)
            && (Terminal(c.row.status) ==> d == c)
  {
    match c.worker
    case AtTop(f) =>
    case Polled(f, cancel) =>
    case _ =>
  }

  lemma StepMovesForward(setup: Setup, c: Cell, act: CellAct)
    requires CellInv(setup, c)
    ensures Forward(c, CellStep(setup, c, act))
    ensures StatusEdge(c.row.status, CellStep(setup, c, act).row.status)
  {
    match act
    case Deliver => DeliverMovesForward(setup, c);
    case _ =>
  }

  lemma ForwardTransitive(a: Cell, b: Cell, c: Cell)
    requires Forward(a, b) && Forward(b, c)
    ensures Forward(a, c)
  {
    forall j, k | j in a.log && k in c.log && k !in a.log ensures j < k {
      if k in b.log {} else { assert j in b.log; }
    }
  }

  /** Over any sequence of steps of worker, canceller and submitter: the status only moves from
      queued to running to one of the three ends and never leaves those, cancellation and the two
      timestamps are never taken back, the clock never goes back, and the log only grows at its end. */
  lemma {:induction false} RunsOnlyMoveForward(setup: Setup, c: Cell, acts: seq<CellAct>)
    requires CellInv(setup, c)
    ensures Forward(c, CellAfter(setup, c, acts))
    decreases |acts|
  {
    if acts == [] {
    } else {
      var next := CellStep(setup, c, acts[0]);
      StepMovesForward(setup, c, acts[0]);
      StepKeepsCellInv(setup, c, acts[0]);
      RunsOnlyMoveForward(setup, next, acts[1..]);
      ForwardTransitive(c, next, CellAfter(setup, next, acts[1..]));
    }
  }

  /** The submitter's late commit of the job id commutes with every step of the worker: it
      neither undoes nor hides any progress. */
  lemma JobIdCommutes(setup: Setup, c: Cell, id: nat, act: CellAct)
    requires !act.RecordJobId?
    ensures CellStep(setup, CellStep(setup, c, RecordJobId(id)), act)
         == CellStep(setup, CellStep(setup, c, act), RecordJobId(id))
  {
    match act
    case Deliver => JobIdCommutesWithDeliver(setup, c, id);
    case _ =>
  }

  lemma JobIdCommutesWithDeliver(setup: Setup, c: Cell, id: nat)
    ensures DeliverStep(setup, CellStep(setup, c, RecordJobId(id)))
            == CellStep(setup, DeliverStep(setup, c), RecordJobId(id))
  {
    match c.worker
    case AtTop(f) =>
    case Polled(f, true) =>
    case Polled(f, false) => var turn := ChunkTurn(setup.simulator, f.sim, f.batch, f.target, f.chunk);
    case _ =>
  }

  /******************************************* Cancellation *******************************************/

  // A `model.run` call has been decided on and has not ended.
  predicate InFlight(c: Cell) {
    c.worker.Polled? && !c.worker.cancel
  }

  // How many `model.run` calls end during a sequence of steps.
  ghost function RunCalls(setup: Setup, c: Cell, acts: seq<CellAct>): nat
    decreases |acts|
  {
    if acts == [] then 0
    else
      var next := CellStep(setup, c, acts[0]);
      (if acts[0].Deliver? && InFlight(c) && next != c then 1 else 0) + RunCalls(setup, next, acts[1..])
  }

  lemma {:induction false} FlaggedCallsAreBounded(setup: Setup, c: Cell, acts: seq<CellAct>)
    requires c.row.cancelRequested
    ensures RunCalls(setup, c, acts) <= if InFlight(c) then 1 else 0
    decreases |acts|
  {
    if acts == [] {
    } else {
      FlightsEnd(setup, c, acts[0]);
      FlaggedCallsAreBounded(setup, CellStep(setup, c, acts[0]), acts[1..]);
    }
  }

  /** Once a run has been asked to stop, whatever happens next, at most the one chunk that was already
      decided on is still run. */
  lemma CancellationIsBounded(setup: Setup, c: Cell, acts: seq<CellAct>)
    ensures RunCalls(setup, CellStep(setup, c, RequestCancel), acts) <= if InFlight(c) then 1 else 0
  {
    FlaggedCallsAreBounded(setup, CellStep(setup, c, RequestCancel), acts);
  }

  // With cancellation requested no new call is decided on, and a delivery ends the one in flight.
  lemma FlightsEnd(setup: Setup, c: Cell, act: CellAct)
    requires c.row.cancelRequested
    ensures var next := CellStep(setup, c, act);
            && next.row.cancelRequested
            && (InFlight(next) ==> InFlight(c) && (act.Deliver? ==> next == c))
  {
  }

  // A job that is at its target as soon as its model is built.
  ghost predicate DoneOnArrival(setup: Setup, job: Job) {
    && LaunchOf(setup, job).Launched?
    && LaunchOf(setup, job).target <= 0
    && setup.simulator.locate(LaunchOf(setup, job).sim.env).Report?
  }

  /** Cancellation comes too late once the worker has no further poll before its target, and nothing
      on the way there raises. */
  ghost predicate TooLateToCancel(setup: Setup, c: Cell) {
    match c.worker
    case Away =>
      || c.row.status == COMPLETED
      || (c.job.None? && exists live, entropy :: DoneOnArrival(setup, JobOf(c.row.order, live, entropy)))
    case Fetched(job) => DoneOnArrival(setup, job)
    case Begun(job) => DoneOnArrival(setup, job)
    case AtTop(f) => f.target <= f.sim.now && setup.simulator.locate(f.sim.env).Report?
    case Polled(f, cancel) =>
      && !cancel && f.target <= f.sim.now + f.chunk
      && var last := RunUntil(setup.simulator, f.sim, f.target);
      && last.Reached? && setup.simulator.locate(last.sim.env).Report?
    case Returned(verdict) => verdict == Completed
  }

  // No step makes a request that was in time come too late.
  lemma StaysInTime(setup: Setup, c: Cell, act: CellAct)
    requires CellInv(setup, c) && c.row.cancelRequested && !TooLateToCancel(setup, c)
    ensures CellStep(setup, c, act).row.cancelRequested && !TooLateToCancel(setup, CellStep(setup, c, act))
  {
    match act
    case Fetch(live, entropy) =>
      if c.enqueued && c.job.None? {
        assert c.worker.Away?;
        assert !DoneOnArrival(setup, JobOf(c.row.order, live, entropy));
      }
    case Deliver => DeliveryStaysInTime(setup, c);
    case _ =>
  }

  lemma DeliveryStaysInTime(setup: Setup, c: Cell)
    requires c.row.cancelRequested && !TooLateToCancel(setup, c)
    ensures DeliverStep(setup, c).row.cancelRequested && !TooLateToCancel(setup, DeliverStep(setup, c))
  {
  }

  lemma {:induction false} NeverCompletes(setup: Setup, c: Cell, acts: seq<CellAct>)
    requires CellInv(setup, c) && c.row.cancelRequested && !TooLateToCancel(setup, c)
    ensures CellAfter(setup, c, acts).row.status != COMPLETED
    decreases |acts|
  {
    if acts == [] {
    } else {
      StaysInTime(setup, c, acts[0]);
      StepKeepsCellInv(setup, c, acts[0]);
      NeverCompletes(setup, CellStep(setup, c, acts[0]), acts[1..]);
    }
  }

  // How many steps a run that will not be stopped needs at most.
  function StepsLeft(c: Cell): nat {
    match c.worker
    case Away => if c.row.status == COMPLETED then 0 else if c.enqueued then 6 else 7
    case Fetched(_) => 5
    case Begun(_) => 4
    case Polled(_, _) => 3
    case AtTop(_) => 2
    case Returned(_) => 1
  }

  lemma LastChunkToCompletion(setup: Setup, c: Cell)
    requires TooLateToCancel(setup, c) && c.worker.Polled?
    ensures TooLateToCancel(setup, DeliverStep(setup, c)) && DeliverStep(setup, c).worker.AtTop?
  {
    var f := c.worker.frame;
    assert Min(f.sim.now + f.chunk, f.target) == f.target;
  }

  // The step that takes it nearer to its end.
  lemma StepToCompletion(setup: Setup, c: Cell) returns (act: CellAct)
    requires TooLateToCancel(setup, c) && c.row.status != COMPLETED
    ensures TooLateToCancel(setup, CellStep(setup, c, act)) && StepsLeft(CellStep(setup, c, act)) < StepsLeft(c)
  {
    match c.worker
    case Away =>
      var live, entropy :| DoneOnArrival(setup, JobOf(c.row.order, live, entropy));
      act := if c.enqueued then Fetch(live, entropy) else Enqueue;
    case Fetched(_) => act := Begin;
    case Begun(_) => act := LaunchModel;
    case AtTop(_) => act := Deliver;
    case Polled(_, _) =>
      act := Deliver;
      LastChunkToCompletion(setup, c);
    case Returned(_) => act := Settle;
  }

  lemma {:induction false} WayToCompletion(setup: Setup, c: Cell) returns (acts: seq<CellAct>)
    requires TooLateToCancel(setup, c)
    ensures CellAfter(setup, c, acts).row.status == COMPLETED
    decreases StepsLeft(c)
  {
    if c.row.status == COMPLETED {
      acts := [];
    } else {
      var act := StepToCompletion(setup, c);
      var rest := WayToCompletion(setup, CellStep(setup, c, act));
      acts := [act] + rest;
      assert acts[1..] == rest;
    }
  }

  /** Asking a run to stop sets its flag, whatever has become of it, and changes nothing else. */
  lemma RequestsAreRecorded(setup: Setup, c: Cell)
    ensures CellStep(setup, c, RequestCancel) == c.(row := c.row.(cancelRequested := true))
  {
  }

  /** A run that is asked to stop can still complete, in some order of whatever steps are yet to come,
      exactly when the request came too late. */
  lemma CancelTakesEffectExactly(setup: Setup, c: Cell)
    requires CellInv(setup, c)
    ensures (exists acts :: CellAfter(setup, CellStep(setup, c, RequestCancel), acts).row.status == COMPLETED)
            <==> TooLateToCancel(setup, c)
  {
    var asked := CellStep(setup, c, RequestCancel);
    StepKeepsCellInv(setup, c, RequestCancel);
    if TooLateToCancel(setup, c) {
      var acts := WayToCompletion(setup, asked);
    } else {
      forall acts: seq<CellAct> ensures CellAfter(setup, asked, acts).row.status != COMPLETED {
        NeverCompletes(setup, asked, acts);
      }
    }
  }

  // The job of a submitted run, which is all in its row.
  function RecordedJob(order: Order): Job
    requires order.snapshot.Some? && order.seed.Some?
  {
    Job(order.snapshot.value, order.untilTarget, order.chunkSize, order.seed.value)
  }

  // From the row and the settings alone: a run that has not ended and has at least one more poll before
  // its target, because it has not begun or is more than a chunk short of it.
  ghost predicate PollAhead(setup: Setup, row: Row) {
    && row.order.snapshot.Some? && row.order.seed.Some? && row.order.untilTarget.Some?
    && var l := LaunchOf(setup, RecordedJob(row.order));
    && l.Launched? && 0 < l.chunk && 0 < l.target
    && (row.status == QUEUED || (row.status == RUNNING && row.simTimeNow.GetOr(0) + l.chunk < l.target))
  }

  lemma FrameClock(setup: Setup, c: Cell, f: Frame)
    requires FrameInv(setup, c, f)
    ensures f.sim.now == c.row.simTimeNow.GetOr(0)
    ensures f.target == LaunchOf(setup, c.job.value).target && f.chunk == LaunchOf(setup, c.job.value).chunk
  {
  }

  lemma PollAheadIsInTime(setup: Setup, c: Cell)
    requires CellInv(setup, c) && PollAhead(setup, c.row)
    ensures !TooLateToCancel(setup, c)
  {
    assert forall live, entropy :: JobOf(c.row.order, live, entropy) == RecordedJob(c.row.order);
    assert c.job.Some? ==> c.job.value == RecordedJob(c.row.order);
    match c.worker
    case AtTop(f) => FrameClock(setup, c, f);
    case Polled(f, _) => FrameClock(setup, c, f);
    case _ =>
  }

  /** The flush on cancellation delivers nothing that was delivered before: it adds rows only if
      no chunk was committed yet, and then exactly what starting the model had reported. */
  lemma CancelFlushRepeatsNothing(setup: Setup, c: Cell)
    requires CellInv(setup, c) && c.worker.Polled? && c.worker.cancel
    ensures var d := CellStep(setup, c, Deliver);
            && (c.row.simTimeNow.Some? ==> d.log == c.log && d.row == c.row)
            && (c.row.simTimeNow.None? ==>
                  d.row.simTimeNow == Some(0) && d.log == Numbered(LaunchOf(setup, c.job.value).batch))
  {
    DeliverKeepsCellInv(setup, c);
    var d := CellStep(setup, c, Deliver);
    if c.row.simTimeNow.Some? {
      assert Rows(c.worker.frame.seqNo, []) == map[];
      assert c.log + map[] == c.log;
    } else {
      assert d.log == map[] + Rows(0, c.worker.frame.batch);
    }
  }

  // A run ends cancelled only short of its target and only if asked to; a completed run reached its
  // target, even if it was asked to stop after its last poll.
  lemma EndsAreReached(setup: Setup, c: Cell)
    requires CellInv(setup, c)
    ensures c.row.status == CANCELLED ==>
              && c.row.cancelRequested && c.job.Some? && LaunchOf(setup, c.job.value).Launched?
              && c.row.simTimeNow.Some? && c.row.simTimeNow.value < LaunchOf(setup, c.job.value).target
    ensures c.row.status == COMPLETED ==>
              && c.job.Some? && LaunchOf(setup, c.job.value).Launched?
              && c.row.simTimeNow == Some(Max(0, LaunchOf(setup, c.job.value).target))
    ensures c.row.simTimeNow.Some? ==> c.row.status != QUEUED
  {
    assert c.job.None? ==> c.row.status == QUEUED;
  }

  /*************************************** The final locations ***************************************/

  // The log is what the reference run of this spec and seed reports up to the clock, numbered from 0; or
  // that and the final locations, at the target.
  ghost predicate Bare(m: Simulator, spec: Spec, seed: int, now: int, log: Log) {
    && Reference(m, spec, seed, now).Reached? && Reference(m, spec, seed, now).sim.now == now
    && log == Numbered(Reference(m, spec, seed, now).events)
  }

  ghost predicate WithLocations(m: Simulator, spec: Spec, seed: int, target: int, now: int, log: Log) {
    var cut := Reference(m, spec, seed, now);
    && now == Max(0, target) && cut.Reached? && cut.sim.now == now
    && var report := m.locate(cut.sim.env);
    && report.Report? && log == Numbered(cut.events + Stamp(now, report.notices))
  }

  // The final locations are in the log of every completed run and of no queued, cancelled or failed
  // one; of the running ones, only a run whose clock is at the target can have them.
  lemma WhereLocationsAre(setup: Setup, c: Cell)
    requires CellInv(setup, c) && c.row.simTimeNow.Some?
    ensures c.job.Some? && LaunchOf(setup, c.job.value).Launched?
    ensures var job, now := c.job.value, c.row.simTimeNow.value;
            var target := LaunchOf(setup, job).target;
            match c.row.status
            case COMPLETED => WithLocations(setup.simulator, job.spec, job.seed, target, now, c.log)
            case RUNNING => || Bare(setup.simulator, job.spec, job.seed, now, c.log)
                            || WithLocations(setup.simulator, job.spec, job.seed, target, now, c.log)
            case _ => Bare(setup.simulator, job.spec, job.seed, now, c.log)
  {
    var cut := Stream(setup, c.job.value, c.row.simTimeNow.value);
    StreamIsReference(setup, c.job.value, c.row.simTimeNow.value);
    assert cut.events + [] == cut.events;
  }

  /************************************ Time order in the log ************************************/

  ghost predicate LogInTimeOrder(log: Log) {
    forall j, k :: j in log && k in log && j < k ==> log[j].time <= log[k].time
  }

  lemma StreamInOrder(setup: Setup, job: Job, time: int)
    requires LaunchOf(setup, job).Launched? && 0 <= time && Stream(setup, job, time).Reached?
    ensures var r := Stream(setup, job, time);
            InTimeOrder(r.events) && Within(r.events, 0, time) && Orderly(r.sim)
  {
    var l := LaunchOf(setup, job);
    RunInOrder(setup.simulator, l.sim, time);
    assert Orderly(l.sim) && l.sim.now == 0;
  }

  /** In every log, whatever chunks it was written in, times do not decrease with `seq`, none is
      negative, and none is later than the committed clock; the rows are numbered 0, 1, 2, ... */
  lemma LogsAreInTimeOrder(setup: Setup, c: Cell)
    requires CellInv(setup, c)
    ensures LogInTimeOrder(c.log)
    ensures forall k :: k in c.log ==> c.row.simTimeNow.Some? && 0 <= c.log[k].time <= c.row.simTimeNow.value
    ensures forall j: nat, k :: k in c.log && j < k ==> j in c.log
  {
    if c.job.Some? && c.row.simTimeNow.Some? {
      StreamInOrder(setup, c.job.value, c.row.simTimeNow.value);
    }
  }

  // No row is later than the clock.
  ghost predicate NoneLate(c: Cell) {
    forall k :: k in c.log ==> c.row.simTimeNow.Some? && c.log[k].time <= c.row.simTimeNow.value
  }

  // No row that `d` has added to `c` is earlier than the clock of `c`.
  ghost predicate NoneEarly(c: Cell, d: Cell) {
    c.row.simTimeNow.Some? ==> forall k :: k in d.log && k !in c.log ==> c.row.simTimeNow.value <= d.log[k].time
  }

  /** The rows a step adds are not earlier than the clock committed before it and not later than
      the clock it commits with them. */
  lemma NewRowsFitTheirChunk(setup: Setup, c: Cell, act: CellAct)
    requires CellInv(setup, c)
    ensures NoneLate(CellStep(setup, c, act)) && NoneEarly(c, CellStep(setup, c, act))
  {
    StepLeavesNoneLate(setup, c, act);
    match act
    case Deliver => DeliveredRowsFit(setup, c);
    case _ => OnlyDeliveriesAddRows(setup, c, act);
  }

  lemma StepLeavesNoneLate(setup: Setup, c: Cell, act: CellAct)
    requires CellInv(setup, c)
    ensures NoneLate(CellStep(setup, c, act))
  {
    StepKeepsCellInv(setup, c, act);
    LogsAreInTimeOrder(setup, CellStep(setup, c, act));
  }

  lemma OnlyDeliveriesAddRows(setup: Setup, c: Cell, act: CellAct)
    requires !act.Deliver?
    ensures CellStep(setup, c, act).log == c.log
  {
  }

  lemma DeliveredRowsFit(setup: Setup, c: Cell)
    requires CellInv(setup, c)
    ensures NoneEarly(c, DeliverStep(setup, c))
  {
    if c.row.simTimeNow.Some? && c.worker.Polled? && !c.worker.cancel {
      ChunkEventsFit(setup, c, c.worker.frame);
    }
  }

  lemma ChunkEventsFit(setup: Setup, c: Cell, f: Frame)
    requires CellInv(setup, c) && c.worker == Polled(f, false) && c.row.simTimeNow.Some?
    ensures var turn := ChunkTurn(setup.simulator, f.sim, f.batch, f.target, f.chunk);
            turn.Flushed? ==> forall i :: 0 <= i < |turn.delivery.events| ==> f.sim.now <= turn.delivery.events[i].time
  {
    StreamInOrder(setup, c.job.value, f.sim.now);
    var turn := ChunkTurn(setup.simulator, f.sim, f.batch, f.target, f.chunk);
    if turn.Flushed? {
      RunInOrder(setup.simulator, f.sim, turn.sim.now);
    }
  }

  /*********************************************** Replay ***********************************************/

  // Two completed runs of the same spec to the same target with the same seed have the same log,
  // whatever their chunk sizes and the chunk settings of the workers that ran them.
  lemma SameJobSameLog(setup: Setup, setup': Setup, a: Cell, b: Cell)
    requires setup'.simulator == setup.simulator
    requires CellInv(setup, a) && CellInv(setup', b)
    requires a.row.status == COMPLETED && b.row.status == COMPLETED
    requires a.row.order.snapshot.Some? && b.row.order.snapshot == a.row.order.snapshot
    requires a.row.order.untilTarget.Some? && b.row.order.untilTarget == a.row.order.untilTarget
    requires a.row.order.seed.Some? && b.row.order.seed == a.row.order.seed
    ensures a.log == b.log && a.row.simTimeNow == b.row.simTimeNow
  {
    EndsAreReached(setup, a);
    EndsAreReached(setup', b);
  }
}
