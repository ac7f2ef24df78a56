/**
 One run: its row, its event log, and the worker that executes it, as a machine whose steps are
 the commits the run's row can see.

 A `Cell` keeps the committed row and log together with what the worker holds in memory. The steps
 of the worker, of a canceller and of the submitter may come in any order. `CellInv` is what every
 order keeps; the lemmas at the end read off what it means for a reader of the database.
 */
module Runs {
  import opened Wrappers
  import opened Json
  import opened Simulation
  import opened Runner

  datatype Status = QUEUED | RUNNING | COMPLETED | FAILED | CANCELLED

  predicate Terminal(status: Status) {
    status in {COMPLETED, FAILED, CANCELLED}
  }

  // The columns written when a run is submitted and never again. The last two, the target and the
  // seed are null in rows from before those columns existed.
  datatype Order = Order(
    project: nat, requestedUntil: Option<int>, untilTarget: Option<int>, chunkSize: Option<int>,
    seed: Option<int>, batch: Option<nat>, snapshot: Option<Spec>, projectVersion: Option<int>)

  datatype Row = Row(
    order: Order, status: Status, simTimeNow: Option<int>, jobId: Option<nat>, hasError: bool,
    cancelRequested: bool, started: bool, finished: bool)

  // The `run_events` rows of one run, by `seq`, which is unique within a run.
  type Log = map<nat, SimEvent>

  function EventFor(first: nat, events: seq<SimEvent>, k: nat): SimEvent
    requires first <= k < first + |events|
  {
    events[k - first]
  }

  // One row for each event, numbered from `first`.
  function Rows(first: nat, events: seq<SimEvent>): Log {
    map k: nat | first <= k < first + |events| :: EventFor(first, events, k)
  }

  // The log that holds exactly these events, numbered from 0.
  function Numbered(events: seq<SimEvent>): Log {
    Rows(0, events)
  }

  lemma NumberedAppend(a: seq<SimEvent>, b: seq<SimEvent>)
    ensures Numbered(a) + Rows(|a|, b) == Numbered(a + b)
  {
  }

  lemma NumberedIsInjective(a: seq<SimEvent>, b: seq<SimEvent>)
    requires Numbered(a) == Numbered(b)
    ensures a == b
  {
    assert forall k: nat :: k < |a| <==> k in Numbered(a);
    assert forall k: nat :: k < |b| <==> k in Numbered(b);
    assert |a| !in Numbered(a) && |b| !in Numbered(b);
    forall k | 0 <= k < |a| ensures a[k] == b[k] {
      assert Numbered(a)[k] == a[k];
    }
  }

  /***************************************** The machine *****************************************/

  // What the worker passes to the runner.
  datatype Job = Job(spec: Spec, until: Option<int>, chunkSize: Option<int>, seed: int)

  // The runner between two awaits: the model, the shared batch, and the worker's row counter.
  datatype Frame = Frame(sim: Sim, batch: seq<SimEvent>, target: int, chunk: int, seqNo: nat)

  datatype Worker =
    | Away                                  // not picked up yet, or done
    | Fetched(job: Job)                     // row read, nothing committed
    | Begun(job: Job)                       // RUNNING committed
    | AtTop(frame: Frame)                   // at the loop test
    | Polled(frame: Frame, cancel: bool)    // `is_cancelled()` has answered
    | Returned(verdict: Verdict)            // outcome known, status not yet committed

  // `job` remembers what the worker read, and with it that the run's job was taken; it is history,
  // not stored by the program.
  datatype Cell = Cell(row: Row, log: Log, worker: Worker, enqueued: bool, job: Option<Job>)

  datatype CellAct =
    | Enqueue
    | RecordJobId(id: nat)
    | RequestCancel
    | Fetch(live: Spec, entropy: int)   // the project's spec now, and the seed drawn if the row has none
    | Begin
    | LaunchModel
    | Poll
    | Deliver
    | Settle

  function NewCell(order: Order): Cell {
    Cell(Row(order, QUEUED, None, None, false, false, false, false), map[], Away, false, None)
  }

  function JobOf(order: Order, live: Spec, entropy: int): Job {
    Job(order.snapshot.GetOr(live), WorkerUntil(order.untilTarget, order.requestedUntil), order.chunkSize,
        order.seed.GetOr(entropy))
  }

  function LaunchOf(setup: Setup, job: Job): Launch {
    Launching(setup, job.spec, job.until, job.chunkSize, job.seed)
  }

  // The commit inside `on_chunk`: new rows and the clock together.
  function CommitChunk(c: Cell, seqNo: nat, d: Delivery): Cell {
    c.(log := c.log + Rows(seqNo, d.events), row := c.row.(simTimeNow := Some(d.now)))
  }

  ghost function DeliverStep(setup: Setup, c: Cell): Cell {
    var m := setup.simulator;
    match c.worker
    case AtTop(f) =>
      if f.sim.now < f.target then c
      else (
        match FinalTurn(m, f.sim, f.batch)
        case Flushed(d, _) => CommitChunk(c, f.seqNo, d).(worker := Returned(Completed))
        case _ => c.(worker := Returned(Failed)))
    case Polled(f, true) =>
      CommitChunk(c, f.seqNo, Delivery(f.sim.now, f.batch)).(worker := Returned(Cancelled))
    case Polled(f, false) =>
      (match ChunkTurn(m, f.sim, f.batch, f.target, f.chunk)
       case Flushed(d, sim') =>
         CommitChunk(c, f.seqNo, d).(
           worker := AtTop(Frame(sim', [], f.target, f.chunk, f.seqNo + |d.events|)))
       case Aborted => c.(worker := Returned(Failed))
       case Endless => c)
    case _ => c
  }

  function FinalStatus(verdict: Verdict): Status {
    match verdict
    case Completed => COMPLETED
    case Cancelled => CANCELLED
    case _ => FAILED
  }

  // A step that is not enabled leaves the cell as it is.
  ghost function CellStep(setup: Setup, c: Cell, act: CellAct): Cell {
    match act
    case Enqueue => c.(enqueued := true)
    case RecordJobId(id) => c.(row := c.row.(jobId := Some(id)))
    case RequestCancel => c.(row := c.row.(cancelRequested := true))
    case Fetch(live, entropy) =>
      // Each run's job executes once.
      if c.enqueued && c.job.None? then
        var job := JobOf(c.row.order, live, entropy);
        c.(worker := Fetched(job), job := Some(job))
      else c
    case Begin =>
      if c.worker.Fetched? then
        c.(worker := Begun(c.worker.job), row := c.row.(status := RUNNING, started := true))
      else c
    case LaunchModel =>
      if c.worker.Begun? then
        match LaunchOf(setup, c.worker.job)
        case Launched(sim, batch, target, chunk) => c.(worker := AtTop(Frame(sim, batch, target, chunk, 0)))
        case LaunchFailed => c.(worker := Returned(Failed))
      else c
    case Poll =>
      if c.worker.AtTop? && c.worker.frame.sim.now < c.worker.frame.target then
        c.(worker := Polled(c.worker.frame, c.row.cancelRequested))
      else c
    case Deliver => DeliverStep(setup, c)
    case Settle =>
      if c.worker.Returned? then
        c.(worker := Away,
           row := c.row.(status := FinalStatus(c.worker.verdict), hasError := c.worker.verdict.Failed?,
                         finished := true))
      else c
  }

  /**************************************** What every order keeps ****************************************/

  // Whether the final locations have been committed.
  predicate Located(c: Cell) {
    c.worker == Returned(Completed) || c.row.status == COMPLETED
  }

  // The model's event stream for a job: the uninterrupted run from its start-up to `time`.
  ghost function Stream(setup: Setup, job: Job, time: int): Outcome
    requires LaunchOf(setup, job).Launched?
  {
    var l := LaunchOf(setup, job);
    Uninterrupted(setup.simulator, l.sim, l.batch, time)
  }

  lemma StreamIsReference(setup: Setup, job: Job, time: int)
    requires LaunchOf(setup, job).Launched?
    ensures Stream(setup, job, time) == Reference(setup.simulator, job.spec, job.seed, time)
  {
    LaunchesAreOfSpecAndSeed(setup, job.spec, job.until, job.chunkSize, job.seed);
  }

  /** The log is the model's event stream cut at the committed clock, numbered from 0, and
      followed by the final locations if those have been committed. Before the first commit of a
      clock there is no log. */
  ghost predicate LogIsStream(setup: Setup, job: Job, clock: Option<int>, located: bool, log: Log) {
    match clock
    case None => log == map[] && !located
    case Some(now) =>
      && LaunchOf(setup, job).Launched?
      && 0 <= now <= Max(0, LaunchOf(setup, job).target)
      && Stream(setup, job, now).Reached?
      && Stream(setup, job, now).sim.now == now
      && var cut := Stream(setup, job, now);
         var report := setup.simulator.locate(cut.sim.env);
         && (located ==> now == Max(0, LaunchOf(setup, job).target) && report.Report?)
         && log == Numbered(cut.events + if located then Stamp(now, report.notices) else [])
  }

  ghost predicate FrameInv(setup: Setup, c: Cell, f: Frame) {
    && c.job.Some?
    && LaunchOf(setup, c.job.value).Launched?
    && var l := LaunchOf(setup, c.job.value);
    && f.target == l.target && f.chunk == l.chunk && (f.sim.now == 0 || 0 < f.chunk)
    && var cut := Stream(setup, c.job.value, f.sim.now);
    && 0 <= f.sim.now && cut.Reached? && cut.sim == f.sim
    && (match c.row.simTimeNow
        case None => f.sim == l.sim && f.batch == l.batch && f.seqNo == 0
        case Some(now) => now == f.sim.now <= f.target && f.batch == [] && f.seqNo == |cut.events|)
  }

  ghost predicate WorkerInv(setup: Setup, c: Cell) {
    match c.worker
    case Away => (c.job.None? && c.row.status == QUEUED) || (c.job.Some? && Terminal(c.row.status))
    case Fetched(job) => c.job == Some(job) && c.row.status == QUEUED
    case Begun(job) => c.job == Some(job) && c.row.status == RUNNING
    case AtTop(f) => c.row.status == RUNNING && FrameInv(setup, c, f)
    case Polled(f, cancel) =>
      && c.row.status == RUNNING && FrameInv(setup, c, f) && f.sim.now < f.target
      && (cancel ==> c.row.cancelRequested)
    case Returned(verdict) => c.job.Some? && c.row.status == RUNNING && EndInv(setup, c, verdict)
  }

  // How far a run got, by how it ended.
  ghost predicate EndInv(setup: Setup, c: Cell, verdict: Verdict)
    requires c.job.Some?
  {
    match verdict
    case Completed =>
      && LaunchOf(setup, c.job.value).Launched?
      && var l := LaunchOf(setup, c.job.value);
      && c.row.simTimeNow == Some(Max(0, l.target)) && (l.target <= 0 || 0 < l.chunk)
    case Cancelled =>
      && c.row.cancelRequested && c.row.simTimeNow.Some?
      && LaunchOf(setup, c.job.value).Launched? && c.row.simTimeNow.value < LaunchOf(setup, c.job.value).target
    case Failed => true
    case NoEnd => false
  }

  ghost predicate CellInv(setup: Setup, c: Cell) {
    && WorkerInv(setup, c)
    && (c.job.None? ==> c.log == map[] && c.row.simTimeNow.None?)
    && (c.job.Some? ==> c.enqueued)
    && (c.job.Some? ==> LogIsStream(setup, c.job.value, c.row.simTimeNow, Located(c), c.log))
    && (c.worker.Fetched? || c.worker.Begun? ==> c.row.simTimeNow.None?)
    && (c.row.started <==> c.row.status != QUEUED)
    && (c.row.finished <==> Terminal(c.row.status))
    && (c.row.hasError <==> c.row.status == FAILED)
    && (c.job.Some? && c.row.status == COMPLETED ==> EndInv(setup, c, Completed))
    && (c.job.Some? && c.row.status == CANCELLED ==> EndInv(setup, c, Cancelled))
    && (c.job.Some? ==> exists live, entropy :: c.job.value == JobOf(c.row.order, live, entropy))
  }

  lemma NewCellInv(setup: Setup, order: Order)
    ensures CellInv(setup, NewCell(order))
  {
  }

  /** Every step keeps the invariant. */
  lemma StepKeepsCellInv(setup: Setup, c: Cell, act: CellAct)
    requires CellInv(setup, c)
    ensures CellInv(setup, CellStep(setup, c, act))
  {
    match act
    case Fetch(live, entropy) => FetchKeepsCellInv(setup, c, live, entropy);
    case Begin => BeginKeepsCellInv(setup, c);
    case Poll => PollKeepsCellInv(setup, c);
    case LaunchModel => LaunchKeepsCellInv(setup, c);
    case Deliver => DeliverKeepsCellInv(setup, c);
    case Settle => SettleKeepsCellInv(setup, c);
    case _ => RequestsKeepCellInv(setup, c, act);
  }

  lemma RequestsKeepCellInv(setup: Setup, c: Cell, act: CellAct)
    requires CellInv(setup, c) && (act.Enqueue? || act.RecordJobId? || act.RequestCancel?)
    ensures CellInv(setup, CellStep(setup, c, act))
  {
  }

  lemma BeginKeepsCellInv(setup: Setup, c: Cell)
    requires CellInv(setup, c)
    ensures CellInv(setup, CellStep(setup, c, Begin))
  {
  }

  lemma PollKeepsCellInv(setup: Setup, c: Cell)
    requires CellInv(setup, c)
    ensures CellInv(setup, CellStep(setup, c, Poll))
  {
  }

  lemma FetchKeepsCellInv(setup: Setup, c: Cell, live: Spec, entropy: int)
    requires CellInv(setup, c)
    ensures CellInv(setup, CellStep(setup, c, Fetch(live, entropy)))
  {
  }

  lemma LaunchKeepsCellInv(setup: Setup, c: Cell)
    requires CellInv(setup, c)
    ensures CellInv(setup, CellStep(setup, c, LaunchModel))
  {
  }

  lemma SettleKeepsCellInv(setup: Setup, c: Cell)
    requires CellInv(setup, c)
    ensures CellInv(setup, CellStep(setup, c, Settle))
  {
  }

  lemma DeliverKeepsCellInv(setup: Setup, c: Cell)
    requires CellInv(setup, c)
    ensures CellInv(setup, DeliverStep(setup, c))
  {
    match c.worker
    case AtTop(f) =>
      if f.target <= f.sim.now { FinalKeepsCellInv(setup, c, f); }
    case Polled(f, true) => CancelKeepsCellInv(setup, c, f);
    case Polled(f, false) => ChunkKeepsCellInv(setup, c, f);
    case _ =>
  }

  // What the log holds once a frame's batch and some further events are committed.
  lemma CommitExtends(setup: Setup, c: Cell, f: Frame, more: seq<SimEvent>)
    requires CellInv(setup, c) && FrameInv(setup, c, f) && !Located(c)
    ensures c.log + Rows(f.seqNo, f.batch + more) == Numbered(Stream(setup, c.job.value, f.sim.now).events + more)
  {
    var cut := Stream(setup, c.job.value, f.sim.now);
    match c.row.simTimeNow
    case None =>
      assert cut.events == f.batch;
      assert map[] + Rows(0, f.batch + more) == Numbered(f.batch + more);
    case Some(now) =>
      assert cut.events + [] == cut.events;
      assert [] + more == more;
      NumberedAppend(cut.events, more);
  }

  lemma FinalKeepsCellInv(setup: Setup, c: Cell, f: Frame)
    requires CellInv(setup, c) && c.worker == AtTop(f) && f.target <= f.sim.now
    ensures CellInv(setup, DeliverStep(setup, c))
  {
    var turn := FinalTurn(setup.simulator, f.sim, f.batch);
    if turn.Flushed? {
      CommitExtends(setup, c, f, Stamp(f.sim.now, setup.simulator.locate(f.sim.env).notices));
    }
  }

  lemma CancelKeepsCellInv(setup: Setup, c: Cell, f: Frame)
    requires CellInv(setup, c) && c.worker == Polled(f, true)
    ensures CellInv(setup, DeliverStep(setup, c))
  {
    CommitExtends(setup, c, f, []);
    assert f.batch + [] == f.batch;
  }

  lemma ChunkKeepsCellInv(setup: Setup, c: Cell, f: Frame)
    requires CellInv(setup, c) && c.worker == Polled(f, false)
    ensures CellInv(setup, DeliverStep(setup, c))
  {
    var m := setup.simulator;
    var l := LaunchOf(setup, c.job.value);
    var turn := ChunkTurn(m, f.sim, f.batch, f.target, f.chunk);
    if turn.Flushed? {
      var run := RunUntil(m, f.sim, turn.sim.now);
      var cut := Stream(setup, c.job.value, f.sim.now);
      Resume(m, l.sim, l.batch, f.sim.now, turn.sim.now);
      assert Stream(setup, c.job.value, turn.sim.now) == Reached(turn.sim, cut.events + run.events);
      CommitExtends(setup, c, f, run.events);
      assert (cut.events + run.events) + [] == cut.events + run.events;
      assert |cut.events + run.events| == f.seqNo + |turn.delivery.events| by {
        if c.row.simTimeNow.None? {
          assert cut.events == f.batch;
        }
      }
    }
  }
}
