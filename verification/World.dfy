/**
 The whole service: a world of committed database states that API calls and workers change one
 commit at a time, in any order.

 An execution is any sequence of actions from the empty database. Calls that read first and commit
 later (creating a project from a base, submitting runs) are split, with what they read kept in
 `calls`, so that anything may happen in between. A call or worker whose row has been deleted
 commits nothing any more. `WorldInv` is what every execution keeps.
 */
module World {
  import opened Wrappers
  import opened Json
  import opened Runner
  import opened Runs
  import opened RunProperties
  import opened Projects
  import opened Submissions

  // The settings, and spur's verdict on whether a project can be run.
  datatype Config = Config(setup: Setup, valid: Spec -> bool)

  // An API call between its read and its commits.
  datatype Call =
    | Creating(spec: Spec, base: Option<nat>)
    | Submitting(project: nat, spec: Spec, version: int, target: int, request: Request)
    | Enqueuing(ids: seq<nat>, next: nat)

  // The runs inserted under one batch id, in the order of their seeds, and the row of the first.
  datatype Batch = Batch(ids: seq<nat>, first: Order)

  /** `projects` and `cells` are the committed tables (with each run's worker beside its row);
      `calls` are the calls under way. `history`, `runIds` and `batches` remember every project, run
      and batch there ever was, so that ids are used once. */
  datatype World = World(
    projects: Table, cells: map<nat, Cell>, calls: map<nat, Call>,
    history: map<nat, History>, runIds: set<nat>, batches: map<nat, Batch>)

  const EMPTY := World(map[], map[], map[], map[], {}, map[])

  datatype Action =
    | LookUpBase(call: nat, spec: Spec, from: Option<nat>)     // create_project, up to its commit
    | CommitProject(call: nat, id: nat)                        // its commit
    | SaveProject(project: nat, spec: Spec, expected: Option<int>)
    | DeleteProject(project: nat)
    | ReadForRun(call: nat, project: nat, request: Request)    // submit_run, up to its first commit
    | CommitRuns(call: nat, ids: seq<nat>, draw: int, batch: nat)
    | EnqueueNext(call: nat)
    | CommitJobIds(call: nat)
    | LegacyRun(id: nat, project: nat, until: Option<int>, chunkSize: Option<int>, seed: Option<int>)
    | CancelRun(run: nat)
    | DeleteRun(run: nat)
    | WorkerStep(run: nat, act: CellAct, entropy: int)

  predicate WorkerAct(act: CellAct) {
    act in {Begin, LaunchModel, Poll, Deliver, Settle}
  }

  /******************************************** The actions ********************************************/

  function LookUp(w: World, call: nat, spec: Spec, from: Option<nat>): World {
    if call in w.calls || (from.Some? && from.value !in w.projects) then w
    else
      var base := if from.None? then None else Some(BaseFor(w.projects, from.value));
      w.(calls := w.calls[call := Creating(spec, base)])
  }

  // The insert fails, and the call with it, if the base has been deleted since.
  function Create(w: World, call: nat, id: nat): World {
    if call !in w.calls || !w.calls[call].Creating? || id in w.history then w
    else
      var c := w.calls[call];
      var rest := w.(calls := w.calls - {call});
      if c.base.Some? && c.base.value !in w.projects then rest
      else rest.(projects := AddProject(w.projects, id, c.spec, c.base),
                 history := w.history[id := [Commit(c.spec, None)]])
  }

  function SaveAction(w: World, project: nat, spec: Spec, expected: Option<int>): World {
    var (result, table) := Save(w.projects, project, spec, expected);
    if result.Saved? && project in w.history then
      w.(projects := table, history := w.history[project := w.history[project] + [Commit(spec, expected)]])
    else w
  }

  // Deleting a project takes its runs with it.
  function Delete(w: World, project: nat): World {
    w.(projects := RemoveProject(w.projects, project),
       cells := map r | r in w.cells && w.cells[r].row.order.project != project :: w.cells[r])
  }

  function Read(cfg: Config, w: World, call: nat, project: nat, request: Request): World {
    if call in w.calls || !Accepted(request) || project !in w.projects || !cfg.valid(w.projects[project].spec) then w
    else
      var row := w.projects[project];
      match Target(request.until, row.spec, cfg.setup.horizon)
      case None => w
      case Some(target) => w.(calls := w.calls[call := Submitting(project, row.spec, row.version, target, request)])
  }

  // Fresh run ids, one for each run asked for, a fresh batch id if there are several, and a draw in
  // the server's range.
  predicate Insertable(w: World, request: Request, ids: seq<nat>, draw: int, batch: nat) {
    && 0 <= request.seeds == |ids|
    && (forall i | 0 <= i < |ids| :: ids[i] !in w.runIds)
    && (forall i, j | 0 <= i < j < |ids| :: ids[i] != ids[j])
    && 0 <= draw < DrawBound(request.seeds)
    && (request.seeds > 1 ==> batch !in w.batches)
  }

  // The rows that a submission which has read its project is about to insert.
  function CallOrders(c: Call, draw: int, batch: nat): seq<Order>
    requires c.Submitting? && 0 <= c.request.seeds
  {
    Orders(c.project, c.spec, c.version, c.target, c.request, FirstSeed(c.request, draw), batch)
  }

  // The insert fails, and the call with it, if the project has been deleted since.
  function InsertRuns(w: World, call: nat, ids: seq<nat>, draw: int, batch: nat): World {
    if call !in w.calls || !w.calls[call].Submitting? then w
    else
      var c := w.calls[call];
      if !Insertable(w, c.request, ids, draw, batch) then w
      else if c.project !in w.projects then w.(calls := w.calls - {call})
      else
        var orders := CallOrders(c, draw, batch);
        w.(cells := AddRuns(w.cells, ids, orders),
           runIds := w.runIds + (set id | id in ids),
           batches := if |ids| > 1 then w.batches[batch := Batch(ids, orders[0])] else w.batches,
           calls := w.calls[call := Enqueuing(ids, 0)])
  }

  // Refreshing a run that has been deleted fails, and the call with it.
  ghost function EnqueueOne(cfg: Config, w: World, call: nat): World {
    if call !in w.calls || !w.calls[call].Enqueuing? || |w.calls[call].ids| <= w.calls[call].next then w
    else
      var c := w.calls[call];
      var id := c.ids[c.next];
      if id !in w.cells then w.(calls := w.calls - {call})
      else w.(cells := w.cells[id := CellStep(cfg.setup, w.cells[id], Enqueue)],
              calls := w.calls[call := Enqueuing(c.ids, c.next + 1)])
  }

  // One commit for the job ids of the whole batch; it fails if any of its runs is gone.
  ghost function RecordJobs(cfg: Config, w: World, call: nat): World {
    if call !in w.calls || !w.calls[call].Enqueuing? || w.calls[call].next < |w.calls[call].ids| then w
    else
      var ids := w.calls[call].ids;
      var rest := w.(calls := w.calls - {call});
      if exists i | 0 <= i < |ids| :: ids[i] !in w.cells then rest
      else rest.(cells := map r | r in w.cells ::
                   if r in ids then CellStep(cfg.setup, w.cells[r], RecordJobId(r)) else w.cells[r])
  }

  // A run from before seeds were required, or specs, targets and versions recorded.
  function AddLegacyRun(w: World, id: nat, project: nat, until: Option<int>, chunkSize: Option<int>,
                        seed: Option<int>): World
  {
    if id in w.runIds || project !in w.projects then w
    else
      var c := NewCell(Order(project, until, None, chunkSize, seed, None, None, None));
      w.(cells := w.cells[id := c.(enqueued := true)], runIds := w.runIds + {id})
  }

  lemma EarlierRowsAreAsGiven(w: World, id: nat, project: nat, until: Option<int>, chunkSize: Option<int>,
                              seed: Option<int>)
    requires id !in w.runIds && project in w.projects
    ensures var w' := AddLegacyRun(w, id, project, until, chunkSize, seed);
            && id in w'.cells && w'.cells[id].enqueued && w'.cells[id].log == map[] && w'.cells[id].job.None?
            && w'.cells[id].row == Row(Order(project, until, None, chunkSize, seed, None, None, None),
                                       QUEUED, None, None, false, false, false, false)
            && w'.cells.Keys == w.cells.Keys + {id} && w'.projects == w.projects
            && (forall r | r in w.cells && r != id :: w'.cells[r] == w.cells[r])
  {
  }

  ghost function StepCell(cfg: Config, w: World, run: nat, act: CellAct): World {
    if run in w.cells then w.(cells := w.cells[run := CellStep(cfg.setup, w.cells[run], act)]) else w
  }

  ghost function Work(cfg: Config, w: World, run: nat, act: CellAct, entropy: int): World {
    if run !in w.cells then w
    else if WorkerAct(act) then StepCell(cfg, w, run, act)
    else if act.Fetch? && w.cells[run].row.order.project in w.projects then
      StepCell(cfg, w, run, Fetch(w.projects[w.cells[run].row.order.project].spec, entropy))
    else w
  }

  // The world after one action; an action that is not enabled changes nothing.
  ghost function Apply(cfg: Config, w: World, a: Action): World {
    match a
    case LookUpBase(call, spec, from) => LookUp(w, call, spec, from)
    case CommitProject(call, id) => Create(w, call, id)
    case SaveProject(project, spec, expected) => SaveAction(w, project, spec, expected)
    case DeleteProject(project) => Delete(w, project)
    case ReadForRun(call, project, request) => Read(cfg, w, call, project, request)
    case CommitRuns(call, ids, draw, batch) => InsertRuns(w, call, ids, draw, batch)
    case EnqueueNext(call) => EnqueueOne(cfg, w, call)
    case CommitJobIds(call) => RecordJobs(cfg, w, call)
    case LegacyRun(id, project, until, chunkSize, seed) => AddLegacyRun(w, id, project, until, chunkSize, seed)
    case CancelRun(run) => StepCell(cfg, w, run, RequestCancel)
    case DeleteRun(run) => w.(cells := w.cells - {run})
    case WorkerStep(run, act, entropy) => Work(cfg, w, run, act, entropy)
  }

  /** The world after an execution. */
  ghost function Execute(cfg: Config, actions: seq<Action>): World
    decreases |actions|
  {
    if actions == [] then EMPTY
    else Apply(cfg, Execute(cfg, actions[..|actions| - 1]), actions[|actions| - 1])
  }

  /*************************************** What every execution keeps ***************************************/

  ghost predicate ProjectsInv(w: World) {
    && Flat(w.projects)
    && (forall p | p in w.projects :: p in w.history && Tracks(w.projects[p], w.history[p]))
    && (forall p | p in w.history :: 1 <= |w.history[p]| && Conditional(w.history[p]))
  }

  ghost predicate CallInv(cfg: Config, w: World, c: Call) {
    match c
    case Creating(_, base) =>
      base.Some? ==> base.value in w.history && (base.value in w.projects ==> w.projects[base.value].base.None?)
    case Submitting(project, spec, version, target, request) =>
      && Accepted(request) && cfg.valid(spec)
      && Held(w.history, project, version, spec)
      && Target(request.until, spec, cfg.setup.horizon) == Some(target)
    case Enqueuing(_, _) => true
  }

  // The project really had this spec at this version.
  ghost predicate Held(history: map<nat, History>, project: nat, version: int, spec: Spec) {
    project in history && 1 <= version <= |history[project]| && history[project][version - 1].spec == spec
  }

  // A submitted run carries a valid spec and a version that its project really held together, the
  // target that they give, and a seed that fits; an earlier row carries none of the first three.
  ghost predicate OrderInv(cfg: Config, history: map<nat, History>, o: Order) {
    match o.projectVersion
    case None => o.snapshot.None? && o.untilTarget.None?
    case Some(version) =>
      && o.snapshot.Some? && cfg.valid(o.snapshot.value)
      && Held(history, o.project, version, o.snapshot.value)
      && o.untilTarget.Some?
      && Target(o.requestedUntil, o.snapshot.value, cfg.setup.horizon) == o.untilTarget
      && o.seed.Some? && 0 <= o.seed.value <= MAX_SEED
  }

  ghost predicate RunInv(cfg: Config, w: World, r: nat)
    requires r in w.cells
  {
    && r in w.runIds
    && w.cells[r].row.order.project in w.projects
    && OrderInv(cfg, w.history, w.cells[r].row.order)
    && CellInv(cfg.setup, w.cells[r])
  }

  ghost predicate CallsInv(cfg: Config, w: World) {
    forall c | c in w.calls :: CallInv(cfg, w, w.calls[c])
  }

  ghost predicate RunsInv(cfg: Config, w: World) {
    forall r | r in w.cells :: RunInv(cfg, w, r)
  }

  ghost predicate WorldInv(cfg: Config, w: World) {
    ProjectsInv(w) && CallsInv(cfg, w) && RunsInv(cfg, w)
  }

  // Histories only grow.
  ghost predicate HistoryGrows(a: map<nat, History>, b: map<nat, History>) {
    forall p | p in a :: p in b && a[p] <= b[p]
  }

  // Runs that are left alone stay good while histories grow around them.
  lemma RunsKept(cfg: Config, w: World, w': World)
    requires RunsInv(cfg, w) && HistoryGrows(w.history, w'.history) && w.runIds <= w'.runIds
    requires forall r | r in w'.cells :: r in w.cells && w'.cells[r] == w.cells[r]
    requires forall r | r in w'.cells :: w'.cells[r].row.order.project in w'.projects
    ensures RunsInv(cfg, w')
  {
    forall r | r in w'.cells ensures RunInv(cfg, w', r) {
      assert RunInv(cfg, w, r);
    }
  }

  // Calls that are left alone stay good as long as no project gains a link or comes back.
  lemma CallsKept(cfg: Config, w: World, w': World)
    requires CallsInv(cfg, w) && HistoryGrows(w.history, w'.history)
    requires forall c | c in w'.calls :: c in w.calls && w'.calls[c] == w.calls[c]
    requires forall p | p in w.history && p in w'.projects ::
               p in w.projects && (w.projects[p].base.None? ==> w'.projects[p].base.None?)
    ensures CallsInv(cfg, w')
  {
    forall c | c in w'.calls ensures CallInv(cfg, w', w'.calls[c]) {
      assert CallInv(cfg, w, w.calls[c]);
    }
  }

  // What an action that adds no run and no call has to leave alone.
  ghost predicate LeavesRunsAndCalls(w: World, w': World) {
    && HistoryGrows(w.history, w'.history) && w.runIds <= w'.runIds
    && (forall r | r in w'.cells :: r in w.cells && w'.cells[r] == w.cells[r])
    && (forall r | r in w'.cells && w.cells[r].row.order.project in w.projects ::
          w.cells[r].row.order.project in w'.projects)
    && (forall c | c in w'.calls :: c in w.calls && w'.calls[c] == w.calls[c])
    && (forall p | p in w.history && p in w'.projects ::
          p in w.projects && (w.projects[p].base.None? ==> w'.projects[p].base.None?))
  }

  lemma RunsAndCallsKept(cfg: Config, w: World, w': World)
    requires WorldInv(cfg, w) && ProjectsInv(w') && LeavesRunsAndCalls(w, w')
    ensures WorldInv(cfg, w')
  {
    forall r | r in w'.cells ensures w'.cells[r].row.order.project in w'.projects {
      assert RunInv(cfg, w, r);
    }
    RunsKept(cfg, w, w');
    CallsKept(cfg, w, w');
  }

  lemma SaveKeepsProjects(w: World, project: nat, spec: Spec, expected: Option<int>)
    requires ProjectsInv(w)
    ensures ProjectsInv(SaveAction(w, project, spec, expected))
  {
    if project in w.projects && Save(w.projects, project, spec, expected).0.Saved? {
      var w' := SaveAction(w, project, spec, expected);
      var h := w.history[project];
      SaveKeepsLinks(w.projects, project, spec, expected);
      SaveTracks(w.projects, project, spec, expected, h);
      assert w'.history == w.history[project := h + [Commit(spec, expected)]];
      forall p | p in w'.projects ensures p in w'.history && Tracks(w'.projects[p], w'.history[p]) {
        if p != project {
          assert w'.projects[p] == w.projects[p] && w'.history[p] == w.history[p];
        }
      }
    }
  }

  // What a save leaves alone.
  lemma SaveFrame(w: World, project: nat, spec: Spec, expected: Option<int>)
    ensures var w' := SaveAction(w, project, spec, expected);
            && w'.cells == w.cells && w'.calls == w.calls && w'.runIds == w.runIds
            && HistoryGrows(w.history, w'.history) && w'.projects.Keys == w.projects.Keys
            && (forall p | p in w.projects :: w'.projects[p].base == w.projects[p].base)
            && LeavesRunsAndCalls(w, w')
  {
    SaveKeepsLinks(w.projects, project, spec, expected);
  }

  lemma SaveKeepsInv(cfg: Config, w: World, project: nat, spec: Spec, expected: Option<int>)
    requires WorldInv(cfg, w)
    ensures WorldInv(cfg, SaveAction(w, project, spec, expected))
  {
    SaveKeepsProjects(w, project, spec, expected);
    SaveFrame(w, project, spec, expected);
    RunsAndCallsKept(cfg, w, SaveAction(w, project, spec, expected));
  }

  lemma DeleteKeepsInv(cfg: Config, w: World, project: nat)
    requires WorldInv(cfg, w)
    ensures WorldInv(cfg, Delete(w, project))
  {
    DeleteFrame(w, project);
    RunsAndCallsKept(cfg, w, Delete(w, project));
  }

  // What deleting a project leaves alone.
  lemma DeleteFrame(w: World, project: nat)
    requires ProjectsInv(w)
    ensures ProjectsInv(Delete(w, project)) && LeavesRunsAndCalls(w, Delete(w, project))
  {
    RemoveDetachesExactly(w.projects, project);
  }

  // What creating a project leaves alone.
  lemma CreateFrame(w: World, call: nat, id: nat)
    ensures var w' := Create(w, call, id);
            && w'.cells == w.cells && w'.runIds == w.runIds && HistoryGrows(w.history, w'.history)
            && (forall c | c in w'.calls :: c in w.calls && w'.calls[c] == w.calls[c])
            && (forall p | p in w.projects :: p in w'.projects)
            && (forall p | p in w'.projects && p in w.history :: p in w.projects && w'.projects[p] == w.projects[p])
            && LeavesRunsAndCalls(w, w')
  {
  }

  lemma CreateKeepsInv(cfg: Config, w: World, call: nat, id: nat)
    requires WorldInv(cfg, w)
    ensures WorldInv(cfg, Create(w, call, id))
  {
    var w' := Create(w, call, id);
    if w' != w {
      assert CallInv(cfg, w, w.calls[call]);
      CreateKeepsProjects(cfg, w, call, id);
      CreateFrame(w, call, id);
      RunsAndCallsKept(cfg, w, w');
    }
  }

  lemma CreateKeepsProjects(cfg: Config, w: World, call: nat, id: nat)
    requires ProjectsInv(w) && call in w.calls && w.calls[call].Creating? && CallInv(cfg, w, w.calls[call])
    ensures ProjectsInv(Create(w, call, id))
  {
    var w' := Create(w, call, id);
    var c := w.calls[call];
    if w'.projects != w.projects {
      CreationTracks(c.spec, c.base);
      InsertKeepsFlat(w.projects, id, c.spec, c.base);
    }
  }

  lemma AddCallKeepsInv(cfg: Config, w: World, call: nat, c: Call)
    requires WorldInv(cfg, w) && CallInv(cfg, w, c)
    ensures WorldInv(cfg, w.(calls := w.calls[call := c]))
  {
    var w' := w.(calls := w.calls[call := c]);
    RunsKept(cfg, w, w'.(calls := w.calls));
    forall k | k in w'.calls ensures CallInv(cfg, w', w'.calls[k]) {
      assert k != call ==> CallInv(cfg, w, w.calls[k]);
    }
  }

  lemma LookUpKeepsInv(cfg: Config, w: World, call: nat, spec: Spec, from: Option<nat>)
    requires WorldInv(cfg, w)
    ensures WorldInv(cfg, LookUp(w, call, spec, from))
  {
    if LookUp(w, call, spec, from) != w {
      if from.Some? {
        BaseForIsABase(w.projects, from.value);
      }
      AddCallKeepsInv(cfg, w, call, Creating(spec, if from.None? then None else Some(BaseFor(w.projects, from.value))));
    }
  }

  lemma ReadKeepsInv(cfg: Config, w: World, call: nat, project: nat, request: Request)
    requires WorldInv(cfg, w)
    ensures WorldInv(cfg, Read(cfg, w, call, project, request))
  {
    var w' := Read(cfg, w, call, project, request);
    if w' != w {
      assert Tracks(w.projects[project], w.history[project]);
      AddCallKeepsInv(cfg, w, call, w'.calls[call]);
    }
  }

  // Every row of a submission is as `OrderInv` wants it.
  lemma NewOrdersAreGood(cfg: Config, w: World, c: Call, draw: int, batch: nat, i: nat)
    requires c.Submitting? && CallInv(cfg, w, c) && 0 <= draw < DrawBound(c.request.seeds) && i < c.request.seeds
    ensures var order := CallOrders(c, draw, batch)[i];
            OrderInv(cfg, w.history, order) && order.project == c.project
  {
    BatchesAreExact(c.project, c.spec, c.version, c.target, c.request, draw, batch);
  }

  lemma InsertRunsKeepsInv(cfg: Config, w: World, call: nat, ids: seq<nat>, draw: int, batch: nat)
    requires WorldInv(cfg, w)
    ensures WorldInv(cfg, InsertRuns(w, call, ids, draw, batch))
  {
    var w' := InsertRuns(w, call, ids, draw, batch);
    if w' != w {
      InsertRunsKeepsCalls(cfg, w, call, ids, draw, batch);
      if call in w'.calls {
        InsertedRunsKeepInv(cfg, w, call, ids, draw, batch);
      } else {
        RunsKept(cfg, w, w');
      }
    }
  }

  lemma InsertRunsKeepsCalls(cfg: Config, w: World, call: nat, ids: seq<nat>, draw: int, batch: nat)
    requires CallsInv(cfg, w)
    ensures CallsInv(cfg, InsertRuns(w, call, ids, draw, batch))
  {
    var w' := InsertRuns(w, call, ids, draw, batch);
    forall k | k in w'.calls ensures CallInv(cfg, w', w'.calls[k]) {
      assert k in w.calls && CallInv(cfg, w, w.calls[k]);
    }
  }

  lemma InsertedRunsKeepInv(cfg: Config, w: World, call: nat, ids: seq<nat>, draw: int, batch: nat)
    requires WorldInv(cfg, w)
    requires var w' := InsertRuns(w, call, ids, draw, batch); w' != w && call in w'.calls
    ensures RunsInv(cfg, InsertRuns(w, call, ids, draw, batch))
  {
    var w' := InsertRuns(w, call, ids, draw, batch);
    var c := w.calls[call];
    var orders := CallOrders(c, draw, batch);
    AddRunsAdds(w.cells, ids, orders);
    assert CallInv(cfg, w, c);
    forall r | r in w'.cells ensures RunInv(cfg, w', r) {
      if r in ids {
        var i :| 0 <= i < |ids| && ids[i] == r;
        NewCellInv(cfg.setup, orders[i]);
        NewOrdersAreGood(cfg, w, c, draw, batch, i);
      } else {
        assert RunInv(cfg, w, r);
      }
    }
  }

  lemma StepCellKeepsInv(cfg: Config, w: World, run: nat, act: CellAct)
    requires WorldInv(cfg, w)
    ensures WorldInv(cfg, StepCell(cfg, w, run, act))
  {
    if run in w.cells {
      var w' := StepCell(cfg, w, run, act);
      StepKeepsCellInv(cfg.setup, w.cells[run], act);
      StepMovesForward(cfg.setup, w.cells[run], act);
      forall r | r in w'.cells ensures RunInv(cfg, w', r) {
        assert RunInv(cfg, w, r);
      }
      CallsKept(cfg, w, w');
    }
  }

  lemma RecordJobsKeepsInv(cfg: Config, w: World, call: nat)
    requires WorldInv(cfg, w)
    ensures WorldInv(cfg, RecordJobs(cfg, w, call))
  {
    var w' := RecordJobs(cfg, w, call);
    RecordJobsFrame(cfg, w, call);
    CallsKept(cfg, w, w');
    forall r | r in w'.cells ensures RunInv(cfg, w', r) {
      assert RunInv(cfg, w, r);
      StepKeepsCellInv(cfg.setup, w.cells[r], RecordJobId(r));
    }
  }

  // What recording job ids leaves alone.
  lemma RecordJobsFrame(cfg: Config, w: World, call: nat)
    ensures var w' := RecordJobs(cfg, w, call);
            && w'.projects == w.projects && w'.history == w.history && w'.runIds == w.runIds
            && (forall c | c in w'.calls :: c in w.calls && w'.calls[c] == w.calls[c])
            && (forall r | r in w'.cells ::
                  r in w.cells && w'.cells[r] in {w.cells[r], CellStep(cfg.setup, w.cells[r], RecordJobId(r))})
  {
  }

  lemma LegacyKeepsInv(cfg: Config, w: World, id: nat, project: nat, until: Option<int>, chunkSize: Option<int>,
                       seed: Option<int>)
    requires WorldInv(cfg, w)
    ensures WorldInv(cfg, AddLegacyRun(w, id, project, until, chunkSize, seed))
  {
    var c := NewCell(Order(project, until, None, chunkSize, seed, None, None, None));
    NewCellInv(cfg.setup, c.row.order);
    StepKeepsCellInv(cfg.setup, c, Enqueue);
  }

  lemma EnqueueKeepsInv(cfg: Config, w: World, call: nat)
    requires WorldInv(cfg, w)
    ensures WorldInv(cfg, EnqueueOne(cfg, w, call))
  {
    if call in w.calls && w.calls[call].Enqueuing? && w.calls[call].next < |w.calls[call].ids| {
      StepCellKeepsInv(cfg, w, w.calls[call].ids[w.calls[call].next], Enqueue);
    }
  }

  lemma WorkKeepsInv(cfg: Config, w: World, run: nat, act: CellAct, entropy: int)
    requires WorldInv(cfg, w)
    ensures WorldInv(cfg, Work(cfg, w, run, act, entropy))
  {
    if run in w.cells {
      StepCellKeepsInv(cfg, w, run, act);
      if w.cells[run].row.order.project in w.projects {
        StepCellKeepsInv(cfg, w, run, Fetch(w.projects[w.cells[run].row.order.project].spec, entropy));
      }
    }
  }

  lemma DeleteRunKeepsInv(cfg: Config, w: World, run: nat)
    requires WorldInv(cfg, w)
    ensures WorldInv(cfg, w.(cells := w.cells - {run}))
  {
    RunsAndCallsKept(cfg, w, w.(cells := w.cells - {run}));
  }

  lemma ApplyKeepsInv(cfg: Config, w: World, a: Action)
    requires WorldInv(cfg, w)
    ensures WorldInv(cfg, Apply(cfg, w, a))
  {
    match a
    case LookUpBase(call, spec, from) => LookUpKeepsInv(cfg, w, call, spec, from);
    case CommitProject(call, id) => CreateKeepsInv(cfg, w, call, id);
    case SaveProject(project, spec, expected) => SaveKeepsInv(cfg, w, project, spec, expected);
    case DeleteProject(project) => DeleteKeepsInv(cfg, w, project);
    case ReadForRun(call, project, request) => ReadKeepsInv(cfg, w, call, project, request);
    case CommitRuns(call, ids, draw, batch) => InsertRunsKeepsInv(cfg, w, call, ids, draw, batch);
    case EnqueueNext(call) => EnqueueKeepsInv(cfg, w, call);
    case CommitJobIds(call) => RecordJobsKeepsInv(cfg, w, call);
    case LegacyRun(id, project, until, chunkSize, seed) => LegacyKeepsInv(cfg, w, id, project, until, chunkSize, seed);
    case CancelRun(run) => StepCellKeepsInv(cfg, w, run, RequestCancel);
    case DeleteRun(run) => DeleteRunKeepsInv(cfg, w, run);
    case WorkerStep(run, act, entropy) => WorkKeepsInv(cfg, w, run, act, entropy);
  }

  /** The invariant holds in every state that any interleaving of calls and workers can reach. */
  lemma {:induction false} EveryStateIsGood(cfg: Config, actions: seq<Action>)
    ensures WorldInv(cfg, Execute(cfg, actions))
    decreases |actions|
  {
    if actions == [] {
    } else {
      EveryStateIsGood(cfg, actions[..|actions| - 1]);
      ApplyKeepsInv(cfg, Execute(cfg, actions[..|actions| - 1]), actions[|actions| - 1]);
    }
  }
}
