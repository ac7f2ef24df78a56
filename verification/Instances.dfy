/**
 Instances of what the code does not rule out: a client that strides through the events of a running
 run and misses one, a run that shows its locations before it has completed, and a run that is out of
 date although its inputs are the project's current ones.
 */
module Instances {
  import opened Wrappers
  import opened Json
  import opened Simulation
  import opened Runner
  import opened Runs
  import opened RunProperties
  import opened Projects
  import opened Submissions
  import opened Paging
  import opened World
  import opened Executions
  import opened WorkerLoop
  import opened Reachability

  const EVERYTHING := Filter(None, None, None, None)

  // One event on starting, two at time 1, and one location whenever asked.
  function BurstSimulator(env: Env, task: Task, notice: Notice): Simulator {
    Simulator((spec, seed) => Built(env, [notice], [Timer(1, task)]),
              (env, now, task) => Continues(env, [notice, notice], []),
              env => Report([notice]))
  }

  function BurstConfig(env: Env, task: Task, notice: Notice): Config {
    Config(Setup(BurstSimulator(env, task, notice), 100, 1000), spec => true)
  }

  // One run of a new project: to 2, in chunks of 1, from seed 0.
  const REQUEST := Request(Some(2), Some(1), Some(0), 1)

  function Submission(spec: Spec): seq<Action> {
    [LookUpBase(0, spec, None), CommitProject(0, 0), ReadForRun(0, 0, REQUEST), CommitRuns(0, [0], 0, 0),
     EnqueueNext(0), WorkerStep(0, Fetch(spec, 0), 0)]
  }

  const FIRST_CHUNK := [Begin, LaunchModel, Poll, Deliver]
  const SECOND_CHUNK := [Poll, Deliver]

  // Read when the first chunk has been committed, and again when the second has.
  function Actions(spec: Spec): seq<Action> {
    Submission(spec) + ActionsFor(0, FIRST_CHUNK + SECOND_CHUNK, 0)
  }

  const READS: seq<nat> := [10, 12]

  function BurstOrder(spec: Spec): Order {
    Order(0, Some(2), Some(2), Some(1), Some(0), None, Some(spec), Some(1))
  }

  function FetchedCell(spec: Spec): Cell {
    var order := BurstOrder(spec);
    var job := Job(spec, Some(2), Some(1), 0);
    NewCell(order).(enqueued := true, worker := Fetched(job), job := Some(job))
  }

  // The worlds on the way: the project created, the submission read, the run inserted.
  function Created(spec: Spec): World {
    World(map[0 := Project(spec, 1, 1, None)], map[], map[], map[0 := [Commit(spec, None)]], {}, map[])
  }

  function ReadIn(spec: Spec): World {
    Created(spec).(calls := map[0 := Submitting(0, spec, 1, 2, REQUEST)])
  }

  function Inserted(spec: Spec): World {
    Created(spec).(calls := map[0 := Enqueuing([0], 0)], runIds := {0}, cells := map[0 := NewCell(BurstOrder(spec))])
  }

  lemma Creation(cfg: Config, spec: Spec)
    ensures Create(LookUp(EMPTY, 0, spec, None), 0, 0) == Created(spec)
  {
    var w := LookUp(EMPTY, 0, spec, None);
    assert w.calls == map[0 := Creating(spec, None)];
    assert w.calls - {0} == map[];
  }

  lemma Reading(cfg: Config, spec: Spec)
    requires cfg.valid(spec)
    ensures Read(cfg, Created(spec), 0, 0, REQUEST) == ReadIn(spec)
  {
  }

  lemma Inserting(spec: Spec)
    ensures InsertRuns(ReadIn(spec), 0, [0], 0, 0) == Inserted(spec)
  {
    var w := ReadIn(spec);
    var orders := Orders(0, spec, 1, 2, REQUEST, 0, 0);
    assert orders == [BurstOrder(spec)];
    assert AddRuns(map[], [0], orders) == map[0 := NewCell(BurstOrder(spec))] by {
      assert AddRuns(map[], [0][..0], orders[..0]) == map[];
    }
    assert (set id | id in [0]) == {0};
    assert w.calls[0 := Enqueuing([0], 0)] == map[0 := Enqueuing([0], 0)];
    assert FirstSeed(REQUEST, 0) == 0 && 0 < DrawBound(1);
  }

  lemma Starting(cfg: Config, spec: Spec)
    ensures var w := Work(cfg, EnqueueOne(cfg, Inserted(spec), 0), 0, Fetch(spec, 0), 0);
            0 in w.cells && w.cells[0] == FetchedCell(spec)
  {
    var w := EnqueueOne(cfg, Inserted(spec), 0);
    assert w.cells[0] == NewCell(BurstOrder(spec)).(enqueued := true);
    assert w.projects[0].spec == spec;
  }

  lemma TwoActions(cfg: Config, actions: seq<Action>, a: Action, b: Action)
    ensures Execute(cfg, actions + [a, b]) == Apply(cfg, Apply(cfg, Execute(cfg, actions), a), b)
  {
    assert actions + [a, b] == (actions + [a]) + [b];
    LastAction(cfg, actions, a);
    LastAction(cfg, actions + [a], b);
  }

  lemma AfterFourActions(cfg: Config, spec: Spec)
    requires cfg.valid(spec)
    ensures Execute(cfg, Submission(spec)[..4]) == Inserted(spec)
  {
    var all := Submission(spec);
    TwoActions(cfg, [], all[0], all[1]);
    assert all[..2] == [] + [all[0], all[1]];
    Creation(cfg, spec);
    TwoActions(cfg, all[..2], all[2], all[3]);
    assert all[..4] == all[..2] + [all[2], all[3]];
    Reading(cfg, spec);
    Inserting(spec);
  }

  lemma Submitted(cfg: Config, spec: Spec)
    requires cfg.valid(spec)
    ensures var w := Execute(cfg, Submission(spec)); 0 in w.cells && w.cells[0] == FetchedCell(spec)
  {
    var all := Submission(spec);
    AfterFourActions(cfg, spec);
    TwoActions(cfg, all[..4], all[4], all[5]);
    assert all == all[..4] + [all[4], all[5]];
    Starting(cfg, spec);
  }

  /************************************** What the worker commits **************************************/

  function OneRow(notice: Notice): seq<SimEvent> {
    Stamp(0, [notice])
  }

  function ThreeRows(notice: Notice): seq<SimEvent> {
    OneRow(notice) + Stamp(1, [notice, notice])
  }

  // The run's worker at the top of its loop, with these events committed.
  function AtTopCell(spec: Spec, sim: Sim, events: seq<SimEvent>): Cell {
    var c := FetchedCell(spec);
    c.(row := c.row.(status := RUNNING, started := true, simTimeNow := Some(sim.now)),
       log := Numbered(events), worker := AtTop(Frame(sim, [], 2, 1, |events|)))
  }

  // A poll and a delivery from a cell.
  lemma OneChunk(setup: Setup, c: Cell)
    ensures CellAfter(setup, c, [Poll, Deliver]) == CellStep(setup, CellStep(setup, c, Poll), Deliver)
  {
    TwoSteps(setup, c, Poll, Deliver, []);
    assert [Poll, Deliver] + [] == [Poll, Deliver];
  }

  // The run RUNNING, and its worker at the top of the loop for the first time.
  function StartedCell(env: Env, task: Task, notice: Notice, spec: Spec): Cell {
    var c := FetchedCell(spec);
    c.(row := c.row.(status := RUNNING, started := true),
       worker := AtTop(Frame(Sim(0, env, [Pending(1, task)]), OneRow(notice), 2, 1, 0)))
  }

  lemma Launch(env: Env, task: Task, notice: Notice, spec: Spec)
    ensures var setup := BurstConfig(env, task, notice).setup;
            CellStep(setup, CellStep(setup, FetchedCell(spec), Begin), LaunchModel)
            == StartedCell(env, task, notice, spec)
  {
    assert Schedule([], 0, [Timer(1, task)]) == [Pending(1, task)] by {
      assert Schedule([Pending(1, task)], 0, [Timer(1, task)][1..]) == [Pending(1, task)];
    }
  }

  lemma FirstChunk(env: Env, task: Task, notice: Notice, spec: Spec)
    ensures CellAfter(BurstConfig(env, task, notice).setup, FetchedCell(spec), FIRST_CHUNK)
            == AtTopCell(spec, Sim(1, env, [Pending(1, task)]), OneRow(notice))
  {
    var setup := BurstConfig(env, task, notice).setup;
    TwoSteps(setup, FetchedCell(spec), Begin, LaunchModel, [Poll, Deliver]);
    assert [Begin, LaunchModel] + [Poll, Deliver] == FIRST_CHUNK;
    Launch(env, task, notice, spec);
    OneChunk(setup, StartedCell(env, task, notice, spec));
    EnoughFuel(setup.simulator, Sim(0, env, [Pending(1, task)]), 1, 0);
    assert OneRow(notice) + [] == OneRow(notice);
    assert map[] + Rows(0, OneRow(notice)) == Numbered(OneRow(notice));
  }

  // The call that fires the pending event.
  lemma CallToTheEnd(env: Env, task: Task, notice: Notice, now: int)
    requires now < 2
    ensures RunUntil(BurstSimulator(env, task, notice), Sim(now, env, [Pending(1, task)]), 2)
            == Reached(Sim(2, env, []), Stamp(1, [notice, notice]))
  {
    var m, s := BurstSimulator(env, task, notice), Sim(now, env, [Pending(1, task)]);
    var burst := Stamp(1, [notice, notice]);
    assert Fire(m, s) == Fired(Sim(1, env, []), burst);
    assert Advance(m, Sim(1, env, []), 2, 0) == Reached(Sim(2, env, []), []);
    assert burst + [] == burst;
    assert Advance(m, s, 2, 1) == Reached(Sim(2, env, []), burst);
    EnoughFuel(m, s, 2, 1);
  }

  lemma SecondTurn(env: Env, task: Task, notice: Notice)
    ensures ChunkTurn(BurstSimulator(env, task, notice), Sim(1, env, [Pending(1, task)]), [], 2, 1)
            == Flushed(Delivery(2, Stamp(1, [notice, notice])), Sim(2, env, []))
  {
    CallToTheEnd(env, task, notice, 1);
    assert [] + Stamp(1, [notice, notice]) == Stamp(1, [notice, notice]);
  }

  lemma SecondChunk(env: Env, task: Task, notice: Notice, spec: Spec)
    ensures var c := AtTopCell(spec, Sim(1, env, [Pending(1, task)]), OneRow(notice));
            CellAfter(BurstConfig(env, task, notice).setup, c, SECOND_CHUNK)
            == AtTopCell(spec, Sim(2, env, []), ThreeRows(notice))
  {
    var setup := BurstConfig(env, task, notice).setup;
    var c := AtTopCell(spec, Sim(1, env, [Pending(1, task)]), OneRow(notice));
    OneChunk(setup, c);
    SecondTurn(env, task, notice);
    assert CellStep(setup, c, Poll) == c.(worker := Polled(c.worker.frame, false));
    NumberedAppend(OneRow(notice), Stamp(1, [notice, notice]));
  }

  /******************************************* What is read *******************************************/

  lemma {:induction false} FirstKeysAscend(keys: set<nat>, n: nat)
    requires forall k: nat :: k in keys <==> k < n
    ensures Ascending(keys) == seq(n, i => i)
  {
    if n == 0 {
      assert keys == {};
    } else {
      assert n - 1 in keys;
      FirstKeysAscend(keys - {n - 1}, n - 1);
    }
  }

  lemma EverythingIsSelected(events: seq<SimEvent>)
    ensures Selected(EVERYTHING, Numbered(events)) == seq(|events|, i => i)
  {
    FirstKeysAscend(Matching(EVERYTHING, Numbered(events)), |events|);
  }

  lemma RowsSelected(notice: Notice)
    ensures Selected(EVERYTHING, Numbered(OneRow(notice))) == [0]
    ensures Selected(EVERYTHING, Numbered(ThreeRows(notice))) == [0, 1, 2]
  {
    EverythingIsSelected(OneRow(notice));
    EverythingIsSelected(ThreeRows(notice));
  }

  lemma LogsRead(env: Env, task: Task, notice: Notice, spec: Spec)
    ensures var cfg, actions := BurstConfig(env, task, notice), Actions(spec);
            var w, w' := Execute(cfg, actions[..10]), Execute(cfg, actions[..12]);
            && 0 in w.cells && w.cells[0].log == Numbered(OneRow(notice))
            && 0 in w'.cells && w'.cells[0].log == Numbered(ThreeRows(notice))
  {
    var cfg, actions := BurstConfig(env, task, notice), Actions(spec);
    Submitted(cfg, spec);
    StepsOfARun(cfg, Submission(spec), 0, FIRST_CHUNK, 0);
    StepsOfARun(cfg, Submission(spec), 0, FIRST_CHUNK + SECOND_CHUNK, 0);
    assert actions[..10] == Submission(spec) + ActionsFor(0, FIRST_CHUNK, 0);
    assert actions[..12] == Submission(spec) + ActionsFor(0, FIRST_CHUNK + SECOND_CHUNK, 0);
    FirstChunk(env, task, notice, spec);
    SecondChunk(env, task, notice, spec);
    InTwoParts(cfg.setup, FetchedCell(spec), FIRST_CHUNK, SECOND_CHUNK);
  }

  lemma StrideOverTwoReads(seen: seq<seq<nat>>)
    requires seen == [[0], [0, 1, 2]]
    ensures Stride(seen, 2, 0, 0) == [0, 2]
  {
    assert Stride(seen, 2, 2, 4) == [];
    assert Stride(seen, 2, 1, 2) == [2];
  }

  /** A run that is read once after each of its two chunks, in pages of two from offsets 0 and 2: the
      reader receives rows 0 and 2, and row 1 never. */
  lemma StridingCanSkip(env: Env, task: Task, notice: Notice, spec: Spec)
    ensures var cfg, actions := BurstConfig(env, task, notice), Actions(spec);
            && READS[0] <= READS[1] <= |actions|
            && (forall i | 0 <= i < |READS| :: 0 in Execute(cfg, actions[..READS[i]]).cells)
            && SelectedAt(cfg, actions, READS, 0, EVERYTHING) == [[0], [0, 1, 2]]
            && Stride(SelectedAt(cfg, actions, READS, 0, EVERYTHING), 2, 0, 0) == [0, 2]
  {
    LogsRead(env, task, notice, spec);
    RowsSelected(notice);
    StrideOverTwoReads(SelectedAt(BurstConfig(env, task, notice), Actions(spec), READS, 0, EVERYTHING));
  }

  /******************************** Locations before completion ********************************/

  /** The same run, taken all the way: it has locations to show at its target, so that it can be seen
      with them while it is still running. */
  lemma LocationsCanPrecedeCompletion(env: Env, task: Task, notice: Notice, spec: Spec) returns (acts: seq<CellAct>)
    ensures var setup, order := BurstConfig(env, task, notice).setup, BurstOrder(spec);
            && ReportsLocations(setup, JobOf(order, spec, 0))
            && LocatedWhileRunning(setup, JobOf(order, spec, 0), CellAfter(setup, NewCell(order), acts))
  {
    var setup, order := BurstConfig(env, task, notice).setup, BurstOrder(spec);
    Launch(env, task, notice, spec);
    CallToTheEnd(env, task, notice, 0);
    acts := StepsToLocations(setup, order, spec, 0);
  }

  /******************************** Out of date with current inputs ********************************/

  const PLAIN: Spec := map[]
  const EDITED: Spec := map["trains" := List([])]

  // A run of a project that is then edited, and edited back.
  function EditsAndBack(): seq<Action> {
    Submission(PLAIN)[..4] + [SaveProject(0, EDITED, None), SaveProject(0, PLAIN, None)]
  }

  lemma TheEditChangesInputs()
    ensures InputsDiffer(PLAIN, EDITED) && InputsDiffer(EDITED, PLAIN)
  {
    assert SIMULATION_INPUTS[3] == "trains";
    assert WithoutNulls(Get(EDITED, SIMULATION_INPUTS[3])).List?;
    assert WithoutNulls(Get(PLAIN, SIMULATION_INPUTS[3])) == Null;
  }

  lemma TwoEdits()
    ensures var w := SaveAction(SaveAction(Inserted(PLAIN), 0, EDITED, None), 0, PLAIN, None);
            && w.projects == map[0 := Project(PLAIN, 3, 3, None)]
            && w.cells == Inserted(PLAIN).cells
  {
    TheEditChangesInputs();
    var w := SaveAction(Inserted(PLAIN), 0, EDITED, None);
    assert w.projects == map[0 := Project(EDITED, 2, 2, None)];
  }

  /** Three saves, the last of which restores the first, and a run submitted after the first: its version
      is below `inputs_version`, and what it ran is what the project has now. */
  lemma RunsCanBeStaleWithCurrentInputs(cfg: Config)
    requires cfg.valid(PLAIN)
    ensures var w := Execute(cfg, EditsAndBack());
            && 0 in w.projects && 0 in w.cells
            && w.cells[0].row.order.projectVersion == Some(1) && w.cells[0].row.order.project == 0
            && 1 < w.projects[0].inputsVersion
            && w.cells[0].row.order.snapshot == Some(w.projects[0].spec)
  {
    AfterFourActions(cfg, PLAIN);
    TwoActions(cfg, Submission(PLAIN)[..4], SaveProject(0, EDITED, None), SaveProject(0, PLAIN, None));
    TwoEdits();
  }
}
