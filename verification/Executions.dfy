/**
 What holds over whole executions: any number of API calls and workers, their commits interleaved
 in any order.

 An execution is a sequence of actions; `Execute(cfg, actions[..i])` is the world after its first
 `i`. The results below are about every execution, and about any two moments in one.
 */
module Executions {
  import opened Wrappers
  import opened Json
  import opened Simulation
  import opened Runner
  import opened Runs
  import opened RunProperties
  import opened Projects
  import opened Submissions
  import opened Paging
  import opened World

  /************************************ From one moment to a later one ************************************/

  // What can be said of any two moments of an execution.
  ghost predicate Later(a: World, b: World) {
    && HistoryGrows(a.history, b.history)
    && a.runIds <= b.runIds
    && (forall p | p in b.projects && p in a.history :: p in a.projects && LinkLater(a, b, p))
    && (forall r | r in b.cells && r in a.runIds :: r in a.cells && Forward(a.cells[r], b.cells[r]))
  }

  // A link stays, or goes when the project it names is gone.
  ghost predicate LinkLater(a: World, b: World, p: nat)
    requires p in a.projects && p in b.projects
  {
    || b.projects[p].base == a.projects[p].base
    || (b.projects[p].base.None? && a.projects[p].base.value !in b.projects)
  }

  lemma ForwardReflexive(c: Cell)
    ensures Forward(c, c)
  {
  }

  lemma CellsLater(cfg: Config, w: World, a: Action)
    requires WorldInv(cfg, w)
    ensures var w' := Apply(cfg, w, a);
            && w.runIds <= w'.runIds
            && (forall r | r in w'.cells && r in w.runIds :: r in w.cells && Forward(w.cells[r], w'.cells[r]))
  {
    var w' := Apply(cfg, w, a);
    OldRunsOnly(cfg, w, a);
    forall r | r in w'.cells && r in w.runIds
      ensures r in w.cells && Forward(w.cells[r], w'.cells[r])
    {
      CellLater(cfg, w, a, r);
    }
  }

  // A run that is gone does not come back.
  lemma OldRunsOnly(cfg: Config, w: World, a: Action)
    ensures w.runIds <= Apply(cfg, w, a).runIds
    ensures forall r | r in Apply(cfg, w, a).cells && r in w.runIds :: r in w.cells
  {
    match a
    case CommitRuns(call, ids, draw, batch) => NewRunsAreNew(w, call, ids, draw, batch);
    case _ =>
  }

  // Runs are only ever added under ids that were never used.
  lemma NewRunsAreNew(w: World, call: nat, ids: seq<nat>, draw: int, batch: nat)
    ensures var w' := InsertRuns(w, call, ids, draw, batch);
            && (forall r | r in w'.cells && r in w.runIds :: r in w.cells && w'.cells[r] == w.cells[r])
            && w.runIds <= w'.runIds
  {
    var w' := InsertRuns(w, call, ids, draw, batch);
    if w' != w && call in w'.calls {
      var c := w.calls[call];
      AddRunsAdds(w.cells, ids, CallOrders(c, draw, batch));
      assert forall i | 0 <= i < |ids| :: ids[i] !in w.runIds;
    }
  }

  // An action takes at most one step of each run's machine.
  lemma CellEffect(cfg: Config, w: World, a: Action, r: nat) returns (act: Option<CellAct>)
    requires r in w.cells && r in w.runIds && r in Apply(cfg, w, a).cells
    ensures Apply(cfg, w, a).cells[r] == if act.Some? then CellStep(cfg.setup, w.cells[r], act.value) else w.cells[r]
  {
    act := None;
    match a
    case CommitRuns(call, ids, draw, batch) => NewRunsAreNew(w, call, ids, draw, batch);
    case EnqueueNext(call) => act := EnqueueEffect(cfg, w, call, r);
    case CommitJobIds(call) => act := RecordEffect(cfg, w, call, r);
    case CancelRun(run) => if run == r { act := Some(RequestCancel); }
    case WorkerStep(run, work, entropy) => act := WorkEffect(cfg, w, run, work, entropy, r);
    case _ => OtherActionsLeaveRuns(cfg, w, a);
  }

  lemma EnqueueEffect(cfg: Config, w: World, call: nat, r: nat) returns (act: Option<CellAct>)
    requires r in w.cells && r in EnqueueOne(cfg, w, call).cells
    ensures EnqueueOne(cfg, w, call).cells[r]
            == if act.Some? then CellStep(cfg.setup, w.cells[r], act.value) else w.cells[r]
  {
    act := if EnqueueOne(cfg, w, call).cells[r] != w.cells[r] then Some(Enqueue) else None;
  }

  lemma RecordEffect(cfg: Config, w: World, call: nat, r: nat) returns (act: Option<CellAct>)
    requires r in w.cells && r in RecordJobs(cfg, w, call).cells
    ensures RecordJobs(cfg, w, call).cells[r]
            == if act.Some? then CellStep(cfg.setup, w.cells[r], act.value) else w.cells[r]
  {
    act := if RecordJobs(cfg, w, call).cells[r] != w.cells[r] then Some(RecordJobId(r)) else None;
  }

  lemma WorkEffect(cfg: Config, w: World, run: nat, work: CellAct, entropy: int, r: nat) returns (act: Option<CellAct>)
    requires r in w.cells && r in Work(cfg, w, run, work, entropy).cells
    ensures Work(cfg, w, run, work, entropy).cells[r]
            == if act.Some? then CellStep(cfg.setup, w.cells[r], act.value) else w.cells[r]
  {
    act := None;
    if run == r {
      if WorkerAct(work) {
        act := Some(work);
      } else if work.Fetch? && w.cells[r].row.order.project in w.projects {
        act := Some(Fetch(w.projects[w.cells[r].row.order.project].spec, entropy));
      }
    }
  }

  lemma OtherActionsLeaveRuns(cfg: Config, w: World, a: Action)
    requires !a.CommitRuns? && !a.EnqueueNext? && !a.CommitJobIds? && !a.CancelRun? && !a.WorkerStep?
    ensures var w' := Apply(cfg, w, a);
            forall r | r in w.cells && r in w.runIds && r in w'.cells :: w'.cells[r] == w.cells[r]
  {
  }

  lemma CellLater(cfg: Config, w: World, a: Action, r: nat)
    requires WorldInv(cfg, w) && r in w.cells && r in w.runIds && r in Apply(cfg, w, a).cells
    ensures Forward(w.cells[r], Apply(cfg, w, a).cells[r])
  {
    var act := CellEffect(cfg, w, a, r);
    assert RunInv(cfg, w, r);
    ForwardReflexive(w.cells[r]);
    if act.Some? {
      StepMovesForward(cfg.setup, w.cells[r], act.value);
    }
  }

  lemma DeleteLater(w: World, project: nat)
    requires ProjectsInv(w)
    ensures var w' := Delete(w, project);
            forall p | p in w'.projects :: p in w.projects && LinkLater(w, w', p)
  {
    RemoveDetachesExactly(w.projects, project);
  }

  lemma ProjectsLater(cfg: Config, w: World, a: Action)
    requires WorldInv(cfg, w)
    ensures var w' := Apply(cfg, w, a);
            && HistoryGrows(w.history, w'.history)
            && (forall p | p in w'.projects && p in w.history :: p in w.projects && LinkLater(w, w', p))
  {
    match a
    case CommitProject(call, id) => CreateFrame(w, call, id);
    case SaveProject(project, spec, expected) => SaveFrame(w, project, spec, expected);
    case DeleteProject(project) => DeleteLater(w, project);
    case CommitRuns(call, ids, draw, batch) => InsertRunsFrame(w, call, ids, draw, batch);
    case _ => OtherActionsFrame(cfg, w, a);
  }

  lemma InsertRunsFrame(w: World, call: nat, ids: seq<nat>, draw: int, batch: nat)
    ensures var w' := InsertRuns(w, call, ids, draw, batch); w'.projects == w.projects && w'.history == w.history
  {
  }

  lemma OtherActionsFrame(cfg: Config, w: World, a: Action)
    requires !a.CommitProject? && !a.SaveProject? && !a.DeleteProject? && !a.CommitRuns?
    ensures Apply(cfg, w, a).projects == w.projects && Apply(cfg, w, a).history == w.history
  {
    match a
    case LookUpBase(_, _, _) =>
    case ReadForRun(_, _, _) =>
    case EnqueueNext(_) =>
    case CommitJobIds(_) =>
    case LegacyRun(_, _, _, _, _) =>
    case CancelRun(_) =>
    case DeleteRun(_) =>
    case WorkerStep(_, _, _) =>
  }

  lemma LaterTransitive(a: World, b: World, c: World)
    requires ProjectsInv(a) && Later(a, b) && Later(b, c)
    ensures Later(a, c)
  {
    forall p | p in c.projects && p in a.history ensures p in a.projects && LinkLater(a, c, p) {
      assert p in b.history && p in b.projects && LinkLater(a, b, p) && LinkLater(b, c, p);
      if a.projects[p].base.Some? {
        var base := a.projects[p].base.value;
        assert base in a.history && base in b.history;
        assert base in c.projects ==> base in b.projects;
      }
    }
    forall r | r in c.cells && r in a.runIds ensures r in a.cells && Forward(a.cells[r], c.cells[r]) {
      assert r in b.runIds && r in b.cells;
      ForwardTransitive(a.cells[r], b.cells[r], c.cells[r]);
    }
  }

  lemma ProjectsAreGood(cfg: Config, actions: seq<Action>)
    ensures ProjectsInv(Execute(cfg, actions))
  {
    EveryStateIsGood(cfg, actions);
  }

  lemma OneStep(cfg: Config, actions: seq<Action>, i: nat)
    requires i < |actions|
    ensures Execute(cfg, actions[..i + 1]) == Apply(cfg, Execute(cfg, actions[..i]), actions[i])
  {
    assert actions[..i + 1][..i] == actions[..i];
  }

  lemma LaterReflexive(a: World)
    ensures Later(a, a)
  {
    forall r | r in a.cells ensures Forward(a.cells[r], a.cells[r]) {
      ForwardReflexive(a.cells[r]);
    }
  }

  lemma LaterOneAction(cfg: Config, actions: seq<Action>, i: nat)
    requires i < |actions|
    ensures Later(Execute(cfg, actions[..i]), Execute(cfg, actions[..i + 1]))
  {
    EveryStateIsGood(cfg, actions[..i]);
    OneStep(cfg, actions, i);
    CellsLater(cfg, Execute(cfg, actions[..i]), actions[i]);
    ProjectsLater(cfg, Execute(cfg, actions[..i]), actions[i]);
  }

  /** Over any execution: histories only grow; no id of a deleted project or run comes back; a link
      only ever goes from set to null, when its base is deleted; and every run that is still there
      has only moved forward. */
  lemma {:induction false} ExecutionsOnlyMoveForward(cfg: Config, actions: seq<Action>, i: nat, j: nat)
    requires i <= j <= |actions|
    ensures Later(Execute(cfg, actions[..i]), Execute(cfg, actions[..j]))
    decreases j
  {
    if i == j {
      LaterReflexive(Execute(cfg, actions[..i]));
    } else {
      ExecutionsOnlyMoveForward(cfg, actions, i, j - 1);
      LaterOneAction(cfg, actions, j - 1);
      ProjectsAreGood(cfg, actions[..i]);
      LaterTransitive(Execute(cfg, actions[..i]), Execute(cfg, actions[..j - 1]), Execute(cfg, actions[..j]));
    }
  }

  /****************************************** No lost update ******************************************/

  // This action saves this project, and goes through.
  ghost predicate GoesThrough(w: World, a: Action, project: nat) {
    a.SaveProject? && a.project == project && Save(w.projects, project, a.spec, a.expected).0.Saved?
  }

  function VersionMade(w: World, a: Action): int
    requires a.SaveProject? && Save(w.projects, a.project, a.spec, a.expected).0.Saved?
  {
    Save(w.projects, a.project, a.spec, a.expected).0.project.version
  }

  // The action makes version `v` of this history: it saves that very spec, in place of the one at
  // the version before, and if it is conditional, then on that version.
  ghost predicate Makes(w: World, a: Action, project: nat, v: int, h: History)
    requires 2 <= v <= |h|
  {
    && GoesThrough(w, a, project) && VersionMade(w, a) == v
    && a.spec == h[v - 1].spec
    && w.projects[project].spec == h[v - 2].spec
    && (a.expected.Some? ==> a.expected.value == v - 1)
  }

  lemma SaveMakes(cfg: Config, w: World, a: Action, project: nat)
    requires ProjectsInv(w) && GoesThrough(w, a, project)
    ensures project in w.projects && project in w.history && 1 <= |w.history[project]|
    ensures project in Apply(cfg, w, a).history
    ensures Apply(cfg, w, a).history[project] == w.history[project] + [Commit(a.spec, a.expected)]
    ensures Makes(w, a, project, |w.history[project]| + 1, Apply(cfg, w, a).history[project])
  {
    assert Tracks(w.projects[project], w.history[project]);
  }

  // The `i`-th action was a save of this project that went through.
  ghost predicate SavedAt(cfg: Config, actions: seq<Action>, i: nat, project: nat) {
    i < |actions| && GoesThrough(Execute(cfg, actions[..i]), actions[i], project)
  }

  /** Of any two saves of a project that go through, however many savers there are, the later one
      makes the larger version, and they were not conditional on the same version. So every version
      is made by one save at most, and of all the saves carrying one version at most one succeeds. */
  lemma NoTwoSavesMakeOneVersion(cfg: Config, actions: seq<Action>, project: nat, i: nat, j: nat)
    requires i < j && SavedAt(cfg, actions, i, project) && SavedAt(cfg, actions, j, project)
    ensures VersionMade(Execute(cfg, actions[..i]), actions[i]) < VersionMade(Execute(cfg, actions[..j]), actions[j])
    ensures actions[i].expected.Some? ==> actions[j].expected != actions[i].expected
  {
    ProjectsAreGood(cfg, actions[..i]);
    ProjectsAreGood(cfg, actions[..j]);
    SaveMakes(cfg, Execute(cfg, actions[..i]), actions[i], project);
    SaveMakes(cfg, Execute(cfg, actions[..j]), actions[j], project);
    OneStep(cfg, actions, i);
    ExecutionsOnlyMoveForward(cfg, actions, i + 1, j);
  }

  // The `i`-th action made version `v`.
  ghost predicate MadeBy(cfg: Config, actions: seq<Action>, i: nat, project: nat, v: int, h: History)
    requires 2 <= v <= |h|
  {
    i < |actions| && Makes(Execute(cfg, actions[..i]), actions[i], project, v, h)
  }

  /** There are no gaps: every version after the first that a project ever had was made by a save
      of that very spec, which replaced the version before it, and if it was conditional, then on
      that version. */
  lemma {:induction false} EveryVersionWasSaved(cfg: Config, actions: seq<Action>, project: nat, v: int)
    requires project in Execute(cfg, actions).history && 2 <= v <= |Execute(cfg, actions).history[project]|
    ensures exists i: nat :: MadeBy(cfg, actions, i, project, v, Execute(cfg, actions).history[project])
    decreases |actions|
  {
    var n := |actions| - 1;
    var w, w' := Execute(cfg, actions[..n]), Execute(cfg, actions);
    if project in w.history && v <= |w.history[project]| {
      EveryVersionWasSaved(cfg, actions[..n], project, v);
      var i: nat :| MadeBy(cfg, actions[..n], i, project, v, w.history[project]);
      HistoriesLater(cfg, w, actions[n], project);
      StillMadeBy(cfg, actions, n, i, project, v, w.history[project], w'.history[project]);
    } else {
      ProjectsAreGood(cfg, actions[..n]);
      HistoryOnlyGrowsBySaving(cfg, w, actions[n], project);
      NewVersionWasSaved(w, actions[n], project, v);
      assert MadeBy(cfg, actions, n, project, v, w'.history[project]);
    }
  }

  lemma NewVersionWasSaved(w: World, a: Action, project: nat, v: int)
    requires ProjectsInv(w) && GoesThrough(w, a, project)
    requires var w' := SaveAction(w, project, a.spec, a.expected);
             project in w.history && project in w'.history && |w.history[project]| < v <= |w'.history[project]|
    ensures 2 <= v && Makes(w, a, project, v, SaveAction(w, project, a.spec, a.expected).history[project])
  {
    assert Tracks(w.projects[project], w.history[project]);
  }

  lemma HistoriesLater(cfg: Config, w: World, a: Action, project: nat)
    requires project in w.history
    ensures project in Apply(cfg, w, a).history && w.history[project] <= Apply(cfg, w, a).history[project]
  {
    match a
    case CommitProject(call, id) => CreateFrame(w, call, id);
    case SaveProject(p, spec, expected) => SaveFrame(w, p, spec, expected);
    case DeleteProject(_) =>
    case CommitRuns(call, ids, draw, batch) => InsertRunsFrame(w, call, ids, draw, batch);
    case _ => OtherActionsFrame(cfg, w, a);
  }

  lemma StillMadeBy(cfg: Config, actions: seq<Action>, n: nat, i: nat, project: nat, v: int, h: History, h': History)
    requires n <= |actions| && 2 <= v <= |h| && h <= h'
    requires MadeBy(cfg, actions[..n], i, project, v, h)
    ensures MadeBy(cfg, actions, i, project, v, h')
  {
    assert actions[..n][..i] == actions[..i];
  }

  lemma HistoryOnlyGrowsBySaving(cfg: Config, w: World, a: Action, project: nat)
    requires ProjectsInv(w)
    requires project in Apply(cfg, w, a).history && 2 <= |Apply(cfg, w, a).history[project]|
    requires project in w.history ==> |w.history[project]| < |Apply(cfg, w, a).history[project]|
    ensures GoesThrough(w, a, project) && project in w.history
    ensures Apply(cfg, w, a) == SaveAction(w, project, a.spec, a.expected)
  {
    match a
    case CommitProject(call, id) =>
    case SaveProject(p, spec, expected) =>
    case DeleteProject(p) =>
    case CommitRuns(call, ids, draw, batch) => InsertRunsFrame(w, call, ids, draw, batch);
    case _ => OtherActionsFrame(cfg, w, a);
  }

  /** A save goes through exactly when the project is there and still at the version the request
      names, if it names one; a refused save changes nothing at all. */
  lemma SavesAreRefusedExactly(cfg: Config, w: World, project: nat, spec: Spec, expected: Option<int>)
    requires WorldInv(cfg, w)
    ensures var result := Save(w.projects, project, spec, expected).0;
            var w' := Apply(cfg, w, SaveProject(project, spec, expected));
            && (result.Saved? <==> project in w.projects && (expected.Some? ==> expected.value == |w.history[project]|))
            && (!result.Saved? ==> w' == w)
            && (result.Stale? ==> project in w.projects && result.version == |w.history[project]|)
            && (result.Saved? ==> project in w'.projects && w'.projects[project] == result.project
                                  && result.project.spec == spec
                                  && result.project.version == |w.history[project]| + 1)
  {
    assert project in w.projects ==> Tracks(w.projects[project], w.history[project]);
  }

  /** `version` counts the commits of a project, and `inputs_version` is the largest version whose
      save changed the simulation inputs, or 1, in every reachable state. */
  lemma CountersAreExact(cfg: Config, actions: seq<Action>, project: nat)
    requires project in Execute(cfg, actions).projects
    ensures var w := Execute(cfg, actions);
            && project in w.history
            && w.projects[project].version == |w.history[project]|
            && LastChangedAt(w.history[project], w.projects[project].inputsVersion)
            && 1 <= w.projects[project].inputsVersion <= w.projects[project].version
  {
    ProjectsAreGood(cfg, actions);
    assert Tracks(Execute(cfg, actions).projects[project], Execute(cfg, actions).history[project]);
  }

  /********************************************** Staleness **********************************************/

  // A run's version is below its project's `inputs_version` exactly when some later save changed
  // the simulation inputs; otherwise what the run used is what the project has now, modulo null
  // keys.
  ghost predicate StalenessExact(project: Project, h: History, order: Order) {
    && order.projectVersion.Some? && order.snapshot.Some?
    && var v := order.projectVersion.value;
    && 1 <= v <= |h| == project.version && h[v - 1].spec == order.snapshot.value
    && (v < project.inputsVersion <==> exists u :: v < u <= |h| && Changed(h, u))
    && (project.inputsVersion <= v ==> SameInputs(order.snapshot.value, project.spec))
  }

  lemma TrackedRunsAreExact(cfg: Config, history: map<nat, History>, project: Project, order: Order)
    requires OrderInv(cfg, history, order) && order.projectVersion.Some? && order.project in history
    requires Tracks(project, history[order.project])
    ensures StalenessExact(project, history[order.project], order)
  {
    StaleExactlyWhenChanged(project, history[order.project], order.projectVersion.value);
  }

  lemma RunAndItsProject(cfg: Config, w: World, r: nat)
    requires WorldInv(cfg, w) && r in w.cells
    ensures var order := w.cells[r].row.order;
            && OrderInv(cfg, w.history, order)
            && order.project in w.projects && order.project in w.history
            && Tracks(w.projects[order.project], w.history[order.project])
  {
    assert RunInv(cfg, w, r);
  }

  /** Staleness is sound and complete in every reachable state, for every run that records the
      version it was submitted at. */
  lemma StalenessIsExact(cfg: Config, actions: seq<Action>, r: nat)
    requires r in Execute(cfg, actions).cells && Execute(cfg, actions).cells[r].row.order.projectVersion.Some?
    ensures var w := Execute(cfg, actions);
            var order := w.cells[r].row.order;
            && order.project in w.projects && order.project in w.history
            && StalenessExact(w.projects[order.project], w.history[order.project], order)
  {
    EveryStateIsGood(cfg, actions);
    var w := Execute(cfg, actions);
    var order := w.cells[r].row.order;
    RunAndItsProject(cfg, w, r);
    TrackedRunsAreExact(cfg, w.history, w.projects[order.project], order);
  }

  // If its inputs are the project's current ones, a run is out of date exactly if some later version
  // had other inputs.
  ghost predicate StaleOnlyIfChangedBack(project: Project, h: History, order: Order) {
    && order.projectVersion.Some? && order.snapshot.Some?
    && (SameInputs(order.snapshot.value, project.spec) ==>
          (order.projectVersion.value < project.inputsVersion
           <==> exists u :: Differs(h, order.projectVersion.value, u)))
  }

  lemma TrackedRunsChangeBack(cfg: Config, history: map<nat, History>, project: Project, order: Order)
    requires OrderInv(cfg, history, order) && order.projectVersion.Some? && order.project in history
    requires Tracks(project, history[order.project])
    ensures StaleOnlyIfChangedBack(project, history[order.project], order)
  {
    if SameInputs(order.snapshot.value, project.spec) {
      StaleWithSameInputsExactly(project, history[order.project], order.projectVersion.value);
    }
  }

  /** A run can be out of date while its inputs are the project's current ones: that is so exactly if
      some later version had other inputs, which have been changed back since. */
  lemma StaleWithCurrentInputsExactly(cfg: Config, actions: seq<Action>, r: nat)
    requires r in Execute(cfg, actions).cells && Execute(cfg, actions).cells[r].row.order.projectVersion.Some?
    ensures var w := Execute(cfg, actions);
            var order := w.cells[r].row.order;
            && order.project in w.projects && order.project in w.history
            && StaleOnlyIfChangedBack(w.projects[order.project], w.history[order.project], order)
  {
    EveryStateIsGood(cfg, actions);
    var w := Execute(cfg, actions);
    var order := w.cells[r].row.order;
    RunAndItsProject(cfg, w, r);
    TrackedRunsChangeBack(cfg, w.history, w.projects[order.project], order);
  }

  /****************************************** Scenario families ******************************************/

  /** In every reachable state, whatever lookups, inserts and deletes overlapped, each link names an
      existing project that is no scenario; and deleting a project detaches exactly its own scenarios. */
  lemma FamiliesStayFlat(cfg: Config, actions: seq<Action>, deleted: nat)
    ensures Flat(Execute(cfg, actions).projects)
    ensures var w := Execute(cfg, actions);
            var w' := Apply(cfg, w, DeleteProject(deleted));
            && w'.projects.Keys == w.projects.Keys - {deleted}
            && (forall q | q in w'.projects ::
                  w'.projects[q].base.Some? <==> w.projects[q].base.Some? && w.projects[q].base.value != deleted)
  {
    EveryStateIsGood(cfg, actions);
    RemoveDetachesExactly(Execute(cfg, actions).projects, deleted);
  }

  /*********************************************** Run logs ***********************************************/

  // A run that has been picked up is run as its row says, to the target recorded in it.
  lemma RunsFollowTheirRow(cfg: Config, w: World, r: nat)
    requires WorldInv(cfg, w) && r in w.cells && w.cells[r].row.order.projectVersion.Some?
    ensures CellInv(cfg.setup, w.cells[r])
    ensures var o := w.cells[r].row.order;
            && o.snapshot.Some? && o.seed.Some? && o.untilTarget.Some?
            && (w.cells[r].job.Some? ==>
                  var job := w.cells[r].job.value;
                  && job.spec == o.snapshot.value && job.seed == o.seed.value
                  && (LaunchOf(cfg.setup, job).Launched? ==> LaunchOf(cfg.setup, job).target == o.untilTarget.value))
  {
    var c := w.cells[r];
    assert RunInv(cfg, w, r);
    if c.job.Some? {
      var live, entropy :| c.job.value == JobOf(c.row.order, live, entropy);
      LaunchesAreOfSpecAndSeed(cfg.setup, c.job.value.spec, c.job.value.until, c.job.value.chunkSize, c.job.value.seed);
    }
  }

  // What a reader of the database can say of a log: nothing is in it before the first clock; then it is
  // the reference run up to the clock, with the locations behind it at the target only.
  ghost predicate LogIsCut(m: Simulator, spec: Spec, seed: int, target: int, clock: Option<int>, log: Log) {
    match clock
    case None => log == map[]
    case Some(now) =>
      && 0 <= now <= Max(0, target)
      && (Bare(m, spec, seed, now, log) || WithLocations(m, spec, seed, target, now, log))
  }

  lemma CellLogsAreCuts(setup: Setup, c: Cell)
    requires CellInv(setup, c)
    ensures c.job.None? ==> c.row.simTimeNow.None? && c.log == map[]
    ensures c.job.Some? && c.row.simTimeNow.None? ==> c.log == map[]
    ensures c.row.simTimeNow.Some? ==>
              && c.job.Some? && LaunchOf(setup, c.job.value).Launched?
              && LogIsCut(setup.simulator, c.job.value.spec, c.job.value.seed, LaunchOf(setup, c.job.value).target,
                          c.row.simTimeNow, c.log)
  {
    if c.row.simTimeNow.Some? {
      WhereLocationsAre(setup, c);
    }
  }

  /** In every reachable state, of a run that is queued, running, completed, failed or cancelled, the
      persisted rows are numbered 0, 1, 2, ... and are what the model built from the spec and the seed
      recorded at submission reports in one uninterrupted run up to the committed clock, whatever became of
      the project since; the final locations follow them only at the recorded target. */
  lemma CommittedLogsAreCuts(cfg: Config, actions: seq<Action>, r: nat)
    requires r in Execute(cfg, actions).cells && Execute(cfg, actions).cells[r].row.order.projectVersion.Some?
    ensures var c := Execute(cfg, actions).cells[r];
            var o := c.row.order;
            && o.snapshot.Some? && o.seed.Some? && o.untilTarget.Some?
            && LogIsCut(cfg.setup.simulator, o.snapshot.value, o.seed.value, o.untilTarget.value, c.row.simTimeNow,
                        c.log)
            && LogInTimeOrder(c.log)
  {
    EveryStateIsGood(cfg, actions);
    RunsFollowTheirRow(cfg, Execute(cfg, actions), r);
    var c := Execute(cfg, actions).cells[r];
    CellLogsAreCuts(cfg.setup, c);
    LogsAreInTimeOrder(cfg.setup, c);
  }

  // What a worker that fetches a row without a spec, when its project has `live`, is to run.
  ghost predicate RunsLive(job: Job, o: Order, live: Spec, entropy: int) {
    && job.spec == live
    && job.seed == (match o.seed case Some(recorded) => recorded case None => entropy)
    && job.until == (if o.untilTarget.Some? then o.untilTarget else o.requestedUntil)
  }

  lemma FetchTakesTheLiveSpec(cfg: Config, w: World, r: nat, act: CellAct, entropy: int)
    requires r in w.cells && w.cells[r].row.order.project in w.projects && act.Fetch?
    requires w.cells[r].enqueued && w.cells[r].job.None? && w.cells[r].row.order.snapshot.None?
    ensures var w', o := Work(cfg, w, r, act, entropy), w.cells[r].row.order;
            && r in w'.cells && w'.cells[r].row == w.cells[r].row && w'.cells[r].job.Some?
            && RunsLive(w'.cells[r].job.value, o, w.projects[o.project].spec, entropy)
  {
  }

  lemma FetchedNext(cfg: Config, actions: seq<Action>, i: nat, r: nat)
    requires i < |actions| && r in Execute(cfg, actions[..i]).cells
    requires actions[i].WorkerStep? && actions[i].run == r && actions[i].act.Fetch?
    requires var c := Execute(cfg, actions[..i]).cells[r]; c.enqueued && c.job.None? && c.row.order.snapshot.None?
    ensures var w, w' := Execute(cfg, actions[..i]), Execute(cfg, actions[..i + 1]);
            var o := w.cells[r].row.order;
            && o.project in w.projects && r in w'.cells && w'.cells[r].job.Some?
            && RunsLive(w'.cells[r].job.value, o, w.projects[o.project].spec, actions[i].entropy)
  {
    CellsAreGood(cfg, actions[..i], r);
    OneStep(cfg, actions, i);
    WorkIsApplied(cfg, Execute(cfg, actions[..i]), actions[i]);
    FetchTakesTheLiveSpec(cfg, Execute(cfg, actions[..i]), r, actions[i].act, actions[i].entropy);
  }

  lemma WorkIsApplied(cfg: Config, w: World, a: Action)
    requires a.WorkerStep?
    ensures Apply(cfg, w, a) == Work(cfg, w, a.run, a.act, a.entropy)
  {
  }

  lemma CellsAreGood(cfg: Config, actions: seq<Action>, r: nat)
    requires r in Execute(cfg, actions).cells
    ensures var w := Execute(cfg, actions);
            CellInv(cfg.setup, w.cells[r]) && r in w.runIds && w.cells[r].row.order.project in w.projects
  {
    EveryStateIsGood(cfg, actions);
    CellIsGood(cfg, Execute(cfg, actions), r);
  }

  lemma JobsStay(cfg: Config, actions: seq<Action>, i: nat, j: nat, r: nat)
    requires i <= j <= |actions|
    requires r in Execute(cfg, actions[..i]).cells && r in Execute(cfg, actions[..j]).cells
    requires Execute(cfg, actions[..i]).cells[r].job.Some?
    ensures Execute(cfg, actions[..j]).cells[r].job == Execute(cfg, actions[..i]).cells[r].job
  {
    EveryStateIsGood(cfg, actions[..i]);
    CellIsGood(cfg, Execute(cfg, actions[..i]), r);
    ExecutionsOnlyMoveForward(cfg, actions, i, j);
  }

  lemma FetchedRunsLive(cfg: Config, actions: seq<Action>, i: nat, j: nat, r: nat)
    requires i < j <= |actions|
    requires r in Execute(cfg, actions[..i]).cells && r in Execute(cfg, actions[..j]).cells
    requires actions[i].WorkerStep? && actions[i].run == r && actions[i].act.Fetch?
    requires var c := Execute(cfg, actions[..i]).cells[r]; c.enqueued && c.job.None? && c.row.order.snapshot.None?
    ensures var w, c := Execute(cfg, actions[..i]), Execute(cfg, actions[..j]).cells[r];
            var o := w.cells[r].row.order;
            && o.project in w.projects && c.job.Some?
            && RunsLive(c.job.value, o, w.projects[o.project].spec, actions[i].entropy)
  {
    FetchedNext(cfg, actions, i, r);
    JobsStay(cfg, actions, i + 1, j, r);
  }

  /** A row from before specs, targets and seeds were recorded is run with the spec that its project has when
      the worker fetches it, and with the seed drawn then if the row has none: whatever is saved later, its
      log is that of the model built from these. */
  lemma EarlierRowsRunWhatIsFetched(cfg: Config, actions: seq<Action>, i: nat, j: nat, r: nat)
    requires i < j <= |actions|
    requires r in Execute(cfg, actions[..i]).cells && r in Execute(cfg, actions[..j]).cells
    requires actions[i].WorkerStep? && actions[i].run == r && actions[i].act.Fetch?
    requires var c := Execute(cfg, actions[..i]).cells[r]; c.enqueued && c.job.None? && c.row.order.snapshot.None?
    ensures var w, c := Execute(cfg, actions[..i]), Execute(cfg, actions[..j]).cells[r];
            var o := w.cells[r].row.order;
            && o.project in w.projects
            && var live := w.projects[o.project].spec;
            var until := if o.untilTarget.Some? then o.untilTarget else o.requestedUntil;
            var target := Target(until, live, cfg.setup.horizon);
            var seed := (match o.seed case Some(recorded) => recorded case None => actions[i].entropy);
            && (c.row.simTimeNow.None? ==> c.log == map[])
            && (c.row.simTimeNow.Some? ==>
                  && target.Some?
                  && LogIsCut(cfg.setup.simulator, live, seed, target.value, c.row.simTimeNow, c.log))
  {
    FetchedRunsLive(cfg, actions, i, j, r);
    EveryStateIsGood(cfg, actions[..j]);
    CellIsGood(cfg, Execute(cfg, actions[..j]), r);
    var c := Execute(cfg, actions[..j]).cells[r];
    var job := c.job.value;
    CellLogsAreCuts(cfg.setup, c);
    LaunchesAreOfSpecAndSeed(cfg.setup, job.spec, job.until, job.chunkSize, job.seed);
  }

  lemma CellIsGood(cfg: Config, w: World, r: nat)
    requires WorldInv(cfg, w) && r in w.cells
    ensures CellInv(cfg.setup, w.cells[r]) && r in w.runIds && w.cells[r].row.order.project in w.projects
  {
    assert RunInv(cfg, w, r);
  }

  /** Where the final locations are, in every reachable state, by what a reader of the database can see:
      the log of a completed run is its stream and then the locations at its target, that of a queued,
      cancelled or failed one is the bare stream cut at the clock, and that of a running one is either. */
  lemma LocationsByStatus(cfg: Config, actions: seq<Action>, r: nat)
    requires r in Execute(cfg, actions).cells && Execute(cfg, actions).cells[r].row.order.projectVersion.Some?
    ensures var c := Execute(cfg, actions).cells[r];
            var m, o := cfg.setup.simulator, c.row.order;
            && o.snapshot.Some? && o.seed.Some? && o.untilTarget.Some?
            && var spec, seed, target := o.snapshot.value, o.seed.value, o.untilTarget.value;
            match c.row.simTimeNow
            case None => c.log == map[] && c.row.status !in {COMPLETED, CANCELLED}
            case Some(now) =>
              match c.row.status
              case COMPLETED => WithLocations(m, spec, seed, target, now, c.log)
              case RUNNING => Bare(m, spec, seed, now, c.log) || WithLocations(m, spec, seed, target, now, c.log)
              case _ => Bare(m, spec, seed, now, c.log)
  {
    EveryStateIsGood(cfg, actions);
    RunsFollowTheirRow(cfg, Execute(cfg, actions), r);
    var c := Execute(cfg, actions).cells[r];
    if c.row.simTimeNow.Some? {
      WhereLocationsAre(cfg.setup, c);
    } else {
      EndsAreReached(cfg.setup, c);
      CellLogsAreCuts(cfg.setup, c);
    }
  }

  /** In every reachable state, what else a row says agrees with its status: the run has a start time
      unless it is queued, an end time once it has ended, and an error exactly if it failed; and only runs
      whose job was enqueued have left the queue. */
  lemma RowsAgreeWithStatus(cfg: Config, actions: seq<Action>, r: nat)
    requires r in Execute(cfg, actions).cells
    ensures var row := Execute(cfg, actions).cells[r].row;
            && (row.status != QUEUED ==> Execute(cfg, actions).cells[r].enqueued)
            && (row.started <==> row.status != QUEUED)
            && (row.finished <==> row.status in {COMPLETED, FAILED, CANCELLED})
            && (row.hasError <==> row.status == FAILED)
  {
    EveryStateIsGood(cfg, actions);
    assert RunInv(cfg, Execute(cfg, actions), r);
  }

  /** How far a submitted run got, by its status and against the target recorded with it: a queued run
      has no clock, a cancelled one was asked to stop and is short of its target, and a completed one
      is at its target, or at 0 if the target was negative. No clock is ever past the target. */
  lemma EndsSayHowFar(cfg: Config, actions: seq<Action>, r: nat)
    requires r in Execute(cfg, actions).cells && Execute(cfg, actions).cells[r].row.order.projectVersion.Some?
    ensures var row := Execute(cfg, actions).cells[r].row;
            && row.order.untilTarget.Some?
            && var target := row.order.untilTarget.value;
            && (row.simTimeNow.Some? ==> row.status != QUEUED && 0 <= row.simTimeNow.value <= Max(0, target))
            && (row.status == CANCELLED ==>
                  row.cancelRequested && row.simTimeNow.Some? && row.simTimeNow.value < target)
            && (row.status == COMPLETED ==> row.simTimeNow == Some(Max(0, target)))
  {
    EveryStateIsGood(cfg, actions);
    RunsFollowTheirRow(cfg, Execute(cfg, actions), r);
    CellLogsAreCuts(cfg.setup, Execute(cfg, actions).cells[r]);
    EndsAreReached(cfg.setup, Execute(cfg, actions).cells[r]);
  }

  // How many `model.run` calls of a run end between two moments of an execution.
  ghost function CallsBetween(cfg: Config, actions: seq<Action>, i: nat, j: nat, r: nat): nat
    requires i <= j <= |actions|
    decreases j - i
  {
    if i == j then 0
    else
      var w, w' := Execute(cfg, actions[..i]), Execute(cfg, actions[..i + 1]);
      var ends := actions[i].WorkerStep? && actions[i].run == r && actions[i].act.Deliver?
                  && r in w.cells && InFlight(w.cells[r]) && w' != w;
      (if ends then 1 else 0) + CallsBetween(cfg, actions, i + 1, j, r)
  }

  lemma {:induction false} FlaggedCallsAreBoundedInExecutions(cfg: Config, actions: seq<Action>, i: nat, j: nat, r: nat)
    requires i <= j <= |actions|
    requires r in Execute(cfg, actions[..i]).runIds
    requires var w := Execute(cfg, actions[..i]); r in w.cells ==> w.cells[r].row.cancelRequested
    ensures var w := Execute(cfg, actions[..i]);
            CallsBetween(cfg, actions, i, j, r) <= if r in w.cells && InFlight(w.cells[r]) then 1 else 0
    decreases j - i
  {
    if i == j {
    } else {
      var w, w' := Execute(cfg, actions[..i]), Execute(cfg, actions[..i + 1]);
      assert actions[..i + 1][..i] == actions[..i];
      assert w' == Apply(cfg, w, actions[i]);
      OneActionOfARun(cfg, w, actions[i], r);
      FlaggedCallsAreBoundedInExecutions(cfg, actions, i + 1, j, r);
    }
  }

  lemma OneActionOfARun(cfg: Config, w: World, a: Action, r: nat)
    requires r in w.runIds && (r in w.cells ==> w.cells[r].row.cancelRequested)
    ensures var w' := Apply(cfg, w, a);
            && r in w'.runIds
            && (r in w'.cells ==> r in w.cells && w'.cells[r].row.cancelRequested)
            && (r in w'.cells && InFlight(w'.cells[r]) ==>
                  InFlight(w.cells[r]) && (a.WorkerStep? && a.run == r && a.act.Deliver? ==> w' == w))
  {
    OldRunsOnly(cfg, w, a);
    var w' := Apply(cfg, w, a);
    if r in w'.cells {
      var act := CellEffect(cfg, w, a, r);
      if act.Some? {
        FlightsEnd(cfg.setup, w.cells[r], act.value);
      }
      if a.WorkerStep? && a.run == r && a.act.Deliver? {
        FlightsEnd(cfg.setup, w.cells[r], Deliver);
        assert w.cells[r := w.cells[r]] == w.cells;
      }
    }
  }

  /** Cancelling a run sets its flag, whatever its status, and changes nothing else anywhere; there is
      nothing to cancel in a run that is gone. */
  lemma CancellingSetsTheFlag(cfg: Config, w: World, r: nat)
    ensures r in w.cells ==>
              Apply(cfg, w, CancelRun(r))
              == w.(cells := w.cells[r := w.cells[r].(row := w.cells[r].row.(cancelRequested := true))])
    ensures r !in w.cells ==> Apply(cfg, w, CancelRun(r)) == w
  {
  }

  /** Deleting a run removes it, and nothing else. */
  lemma DeletingRemovesTheRun(cfg: Config, w: World, r: nat)
    ensures Apply(cfg, w, DeleteRun(r)) == w.(cells := w.cells - {r})
  {
  }

  /** From the moment that a run is cancelled on, at most one more of its `model.run` calls ends, the one
      that was in flight, whatever else the execution does. */
  lemma CancellationIsBoundedInExecutions(cfg: Config, actions: seq<Action>, i: nat, j: nat, r: nat)
    requires i < j <= |actions| && actions[i] == CancelRun(r) && r in Execute(cfg, actions[..i]).cells
    ensures CallsBetween(cfg, actions, i + 1, j, r) <= if InFlight(Execute(cfg, actions[..i]).cells[r]) then 1 else 0
  {
    EveryStateIsGood(cfg, actions[..i]);
    CellIsGood(cfg, Execute(cfg, actions[..i]), r);
    OneStep(cfg, actions, i);
    CancellingSetsTheFlag(cfg, Execute(cfg, actions[..i]), r);
    FlaggedCallsAreBoundedInExecutions(cfg, actions, i + 1, j, r);
  }

  // A run that has been asked to stop, and not too late.
  ghost predicate StopsInTime(cfg: Config, w: World, r: nat) {
    r in w.cells ==> w.cells[r].row.cancelRequested && !TooLateToCancel(cfg.setup, w.cells[r])
  }

  lemma ActionKeepsInTime(cfg: Config, w: World, a: Action, r: nat)
    requires WorldInv(cfg, w) && r in w.runIds && StopsInTime(cfg, w, r)
    ensures r in Apply(cfg, w, a).runIds && StopsInTime(cfg, Apply(cfg, w, a), r)
  {
    OldRunsOnly(cfg, w, a);
    if r in Apply(cfg, w, a).cells {
      assert RunInv(cfg, w, r);
      var act := CellEffect(cfg, w, a, r);
      if act.Some? {
        StaysInTime(cfg.setup, w.cells[r], act.value);
      }
    }
  }

  lemma NextIsInTime(cfg: Config, actions: seq<Action>, i: nat, r: nat)
    requires i < |actions|
    requires r in Execute(cfg, actions[..i]).runIds && StopsInTime(cfg, Execute(cfg, actions[..i]), r)
    ensures r in Execute(cfg, actions[..i + 1]).runIds && StopsInTime(cfg, Execute(cfg, actions[..i + 1]), r)
  {
    EveryStateIsGood(cfg, actions[..i]);
    OneStep(cfg, actions, i);
    ActionKeepsInTime(cfg, Execute(cfg, actions[..i]), actions[i], r);
  }

  lemma {:induction false} NeverCompletesInExecutions(cfg: Config, actions: seq<Action>, i: nat, j: nat, r: nat)
    requires i <= j <= |actions|
    requires r in Execute(cfg, actions[..i]).runIds && StopsInTime(cfg, Execute(cfg, actions[..i]), r)
    ensures r in Execute(cfg, actions[..j]).runIds && StopsInTime(cfg, Execute(cfg, actions[..j]), r)
    decreases j
  {
    if i == j {
    } else {
      NeverCompletesInExecutions(cfg, actions, i, j - 1, r);
      NextIsInTime(cfg, actions, j - 1, r);
    }
  }

  lemma PollAheadStopsInTime(cfg: Config, w: World, r: nat)
    requires WorldInv(cfg, w) && r in w.cells && w.cells[r].row.cancelRequested && PollAhead(cfg.setup, w.cells[r].row)
    ensures r in w.runIds && StopsInTime(cfg, w, r)
  {
    assert RunInv(cfg, w, r);
    PollAheadIsInTime(cfg.setup, w.cells[r]);
  }

  lemma InTimeIsNotCompleted(cfg: Config, w: World, r: nat)
    requires WorldInv(cfg, w) && r in w.cells && StopsInTime(cfg, w, r)
    ensures w.cells[r].row.status != COMPLETED
  {
    assert RunInv(cfg, w, r);
    NeverCompletes(cfg.setup, w.cells[r], []);
  }

  /** What whoever cancels can tell from the row: if a run with a positive target and chunk size is still
      queued, or is running and its clock is more than a chunk short of its target, when it is cancelled,
      then it never completes, whatever else the execution does. */
  lemma CancelledEarlyNeverCompletes(cfg: Config, actions: seq<Action>, i: nat, j: nat, r: nat)
    requires i < j <= |actions| && actions[i] == CancelRun(r)
    requires r in Execute(cfg, actions[..i]).cells && r in Execute(cfg, actions[..j]).cells
    requires PollAhead(cfg.setup, Execute(cfg, actions[..i]).cells[r].row)
    ensures Execute(cfg, actions[..j]).cells[r].row.status != COMPLETED
  {
    OneStep(cfg, actions, i);
    CancellingSetsTheFlag(cfg, Execute(cfg, actions[..i]), r);
    EveryStateIsGood(cfg, actions[..i + 1]);
    PollAheadStopsInTime(cfg, Execute(cfg, actions[..i + 1]), r);
    NeverCompletesInExecutions(cfg, actions, i + 1, j, r);
    EveryStateIsGood(cfg, actions[..j]);
    InTimeIsNotCompleted(cfg, Execute(cfg, actions[..j]), r);
  }

  /** Replay: two completed runs, of one execution or of two, with the same snapshot, target and
      seed have the same log, whatever their chunk sizes, whatever was edited after they were
      submitted, and however everything was interleaved. */
  lemma ReplaysAgree(cfg: Config, actions: seq<Action>, r: nat, cfg': Config, actions': seq<Action>, r': nat)
    requires cfg'.setup.simulator == cfg.setup.simulator
    requires r in Execute(cfg, actions).cells && r' in Execute(cfg', actions').cells
    requires var a, b := Execute(cfg, actions).cells[r].row, Execute(cfg', actions').cells[r'].row;
             && a.status == COMPLETED && b.status == COMPLETED && a.order.projectVersion.Some?
             && b.order.snapshot == a.order.snapshot && b.order.untilTarget == a.order.untilTarget
             && b.order.seed == a.order.seed
    ensures Execute(cfg, actions).cells[r].log == Execute(cfg', actions').cells[r'].log
  {
    EveryStateIsGood(cfg, actions);
    EveryStateIsGood(cfg', actions');
    assert RunInv(cfg, Execute(cfg, actions), r);
    assert RunInv(cfg', Execute(cfg', actions'), r');
    SameJobSameLog(cfg.setup, cfg'.setup, Execute(cfg, actions).cells[r], Execute(cfg', actions').cells[r']);
  }

  /********************************************* Submissions *********************************************/

  // The action inserts the runs of a submission.
  ghost predicate Inserts(w: World, call: nat, ids: seq<nat>, draw: int, batch: nat) {
    && call in w.calls && w.calls[call].Submitting?
    && Insertable(w, w.calls[call].request, ids, draw, batch)
    && w.calls[call].project in w.projects
  }

  // `after` holds what `before` does, and these new runs.
  ghost predicate AddsExactly(before: map<nat, Cell>, after: map<nat, Cell>, ids: seq<nat>, orders: seq<Order>)
    requires |ids| == |orders|
  {
    && (forall r :: r in after <==> r in before || r in ids)
    && (forall r | r in before :: r !in ids && after[r] == before[r])
    && (forall i | 0 <= i < |ids| :: after[ids[i]] == NewCell(orders[i]))
  }

  lemma InsertsAddExactly(w: World, call: nat, ids: seq<nat>, draw: int, batch: nat)
    requires Inserts(w, call, ids, draw, batch) && w.cells.Keys <= w.runIds
    ensures var w' := InsertRuns(w, call, ids, draw, batch);
            && AddsExactly(w.cells, w'.cells, ids, CallOrders(w.calls[call], draw, batch))
            && w'.projects == w.projects
  {
    AddRunsAdds(w.cells, ids, CallOrders(w.calls[call], draw, batch));
  }

  // A run as it is submitted: queued, with nothing in its log, and with all that was asked for, read and
  // fixed recorded in its row.
  ghost predicate IsSubmitted(c: Cell, call: Call, seed: int, batch: Option<nat>)
    requires call.Submitting?
  {
    && c.row == Row(Order(call.project, call.request.until, Some(call.target), call.request.chunkSize, Some(seed),
                          batch, Some(call.spec), Some(call.version)),
                    QUEUED, None, None, false, false, false, false)
    && c.log == map[] && c.job.None? && 0 <= seed < 9_223_372_036_854_775_808
  }

  // The runs of a submission have consecutive seeds, from the one asked for or else from the one drawn.
  ghost predicate AreSubmitted(cells: map<nat, Cell>, ids: seq<nat>, call: Call, draw: int, batch: nat)
    requires call.Submitting?
  {
    forall i | 0 <= i < |ids| ::
      && ids[i] in cells
      && IsSubmitted(cells[ids[i]], call, (match call.request.seed case Some(asked) => asked case None => draw) + i,
                     if |ids| == 1 then None else Some(batch))
  }

  lemma AddedRunsAreSubmitted(before: map<nat, Cell>, after: map<nat, Cell>, ids: seq<nat>, c: Call, draw: int,
                              batch: nat)
    requires c.Submitting? && Accepted(c.request) && 0 <= draw < DrawBound(c.request.seeds) && |ids| == c.request.seeds
    requires AddsExactly(before, after, ids, CallOrders(c, draw, batch))
    ensures AreSubmitted(after, ids, c, draw, batch)
  {
    BatchesAreExact(c.project, c.spec, c.version, c.target, c.request, draw, batch);
  }

  lemma CallsAreGood(cfg: Config, actions: seq<Action>, call: nat)
    requires call in Execute(cfg, actions).calls
    ensures var w := Execute(cfg, actions); CallInv(cfg, w, w.calls[call]) && w.cells.Keys <= w.runIds
  {
    EveryStateIsGood(cfg, actions);
    var w := Execute(cfg, actions);
    forall r | r in w.cells ensures r in w.runIds { assert RunInv(cfg, w, r); }
  }

  /** A submission that commits, whatever happened since it read the project, adds exactly the runs
      asked for: queued, with consecutive seeds that fit, from the one asked for if one was; with a batch id
      exactly when there are several; and with one spec and version, which the project really held together,
      and the target they give. Nothing else changes. */
  lemma SubmissionsAreExact(cfg: Config, actions: seq<Action>, call: nat, ids: seq<nat>, draw: int, batch: nat)
    requires Inserts(Execute(cfg, actions), call, ids, draw, batch)
    ensures var w := Execute(cfg, actions);
            var w' := InsertRuns(w, call, ids, draw, batch);
            var c := w.calls[call];
            && |ids| == c.request.seeds
            && Held(w.history, c.project, c.version, c.spec)
            && Target(c.request.until, c.spec, cfg.setup.horizon) == Some(c.target)
            && w'.projects == w.projects
            && AddsExactly(w.cells, w'.cells, ids, CallOrders(c, draw, batch))
            && AreSubmitted(w'.cells, ids, c, draw, batch)
  {
    var w := Execute(cfg, actions);
    CallsAreGood(cfg, actions, call);
    InsertsAddExactly(w, call, ids, draw, batch);
    AddedRunsAreSubmitted(w.cells, InsertRuns(w, call, ids, draw, batch).cells, ids, w.calls[call], draw, batch);
  }

  /********************************************* Batches *********************************************/

  // The `i`-th run of the batch: its row is the first one's, but for a seed that is `i` further on.
  ghost predicate InBatchAt(b: Batch, i: int, r: nat, order: Order) {
    && 0 <= i < |b.ids| <= MAX_SEEDS && b.ids[i] == r
    && b.first.seed.Some? && order == b.first.(seed := Some(b.first.seed.value + i))
  }

  ghost predicate InBatch(b: Batch, r: nat, order: Order) {
    exists i :: InBatchAt(b, i, r, order)
  }

  ghost predicate KnowsItsBatch(w: World, r: nat)
    requires r in w.cells
  {
    var order := w.cells[r].row.order;
    order.batch.Some? ==> order.batch.value in w.batches && InBatch(w.batches[order.batch.value], r, order)
  }

  lemma BatchesStay(cfg: Config, w: World, a: Action)
    ensures forall b | b in w.batches :: b in Apply(cfg, w, a).batches && Apply(cfg, w, a).batches[b] == w.batches[b]
  {
  }

  lemma InsertedRunsKnow(cfg: Config, w: World, call: nat, ids: seq<nat>, draw: int, batch: nat, r: nat)
    requires Inserts(w, call, ids, draw, batch) && CallInv(cfg, w, w.calls[call]) && w.cells.Keys <= w.runIds
    requires r in ids
    ensures var w' := InsertRuns(w, call, ids, draw, batch); r in w'.cells && KnowsItsBatch(w', r)
  {
    var orders := CallOrders(w.calls[call], draw, batch);
    InsertsAddExactly(w, call, ids, draw, batch);
    var i :| 0 <= i < |ids| && ids[i] == r;
    OrdersOfABatch(w.calls[call], ids, draw, batch, i);
  }

  lemma OrdersOfABatch(c: Call, ids: seq<nat>, draw: int, batch: nat, i: nat)
    requires c.Submitting? && 0 <= c.request.seeds == |ids| <= MAX_SEEDS && i < |ids|
    ensures var orders := CallOrders(c, draw, batch); InBatchAt(Batch(ids, orders[0]), i, ids[i], orders[i])
  {
  }

  lemma NewRunsKnow(cfg: Config, w: World, a: Action, r: nat)
    requires WorldInv(cfg, w) && r in Apply(cfg, w, a).cells && r !in w.cells
    ensures KnowsItsBatch(Apply(cfg, w, a), r)
  {
    match a
    case CommitRuns(call, ids, draw, batch) => SubmittedRunsKnow(cfg, w, call, ids, draw, batch, r);
    case LegacyRun(_, _, _, _, _) =>
    case _ => OtherActionsAddNoRuns(cfg, w, a);
  }

  lemma OtherActionsAddNoRuns(cfg: Config, w: World, a: Action)
    requires !a.CommitRuns? && !a.LegacyRun?
    ensures forall r | r in Apply(cfg, w, a).cells :: r in w.cells
  {
  }

  lemma SubmittedRunsKnow(cfg: Config, w: World, call: nat, ids: seq<nat>, draw: int, batch: nat, r: nat)
    requires WorldInv(cfg, w) && r in InsertRuns(w, call, ids, draw, batch).cells && r !in w.cells
    ensures KnowsItsBatch(InsertRuns(w, call, ids, draw, batch), r)
  {
    assert Inserts(w, call, ids, draw, batch);
    assert CallInv(cfg, w, w.calls[call]);
    forall q | q in w.cells ensures q in w.runIds { assert RunInv(cfg, w, q); }
    InsertsAddExactly(w, call, ids, draw, batch);
    InsertedRunsKnow(cfg, w, call, ids, draw, batch, r);
  }

  lemma {:induction false} RunsKnowTheirBatch(cfg: Config, actions: seq<Action>, r: nat)
    requires r in Execute(cfg, actions).cells
    ensures KnowsItsBatch(Execute(cfg, actions), r)
    decreases |actions|
  {
    if actions == [] {
    } else {
      var n := |actions| - 1;
      var w := Execute(cfg, actions[..n]);
      EveryStateIsGood(cfg, actions[..n]);
      if r in w.cells {
        RunsKnowTheirBatch(cfg, actions[..n], r);
        OldRunKnows(cfg, w, actions[n], r);
      } else {
        NewRunsKnow(cfg, w, actions[n], r);
      }
    }
  }

  lemma OldRunKnows(cfg: Config, w: World, a: Action, r: nat)
    requires WorldInv(cfg, w) && r in w.cells && r in Apply(cfg, w, a).cells && KnowsItsBatch(w, r)
    ensures KnowsItsBatch(Apply(cfg, w, a), r)
  {
    assert RunInv(cfg, w, r);
    BatchesStay(cfg, w, a);
    var act := CellEffect(cfg, w, a, r);
    if act.Some? {
      StepMovesForward(cfg.setup, w.cells[r], act.value);
    }
  }

  // Two runs of a batch have the same row, but for seeds that are as far apart as the runs are in it.
  ghost predicate ApartInSeed(batch: Batch, r: nat, a: Order, r': nat, b: Order) {
    && a.seed.Some? && b.seed.Some? && b == a.(seed := b.seed)
    && (r != r' ==> a.seed != b.seed)
    && exists i, j :: InBatchAt(batch, i, r, a) && InBatchAt(batch, j, r', b) && b.seed.value - a.seed.value == j - i
  }

  lemma TwoOfABatch(batch: Batch, r: nat, a: Order, r': nat, b: Order)
    requires InBatch(batch, r, a) && InBatch(batch, r', b)
    ensures ApartInSeed(batch, r, a, r', b)
  {
    var i :| InBatchAt(batch, i, r, a);
    var j :| InBatchAt(batch, j, r', b);
  }

  /** In every reachable state, the runs that share a batch id were submitted together: their rows as
      submitted are the same but for the seeds, which are as far apart as the runs are in the batch, so
      that no two runs of a batch have the same one. */
  lemma RunsOfABatchDifferInSeed(cfg: Config, actions: seq<Action>, r: nat, r': nat)
    requires r in Execute(cfg, actions).cells && r' in Execute(cfg, actions).cells
    requires var w := Execute(cfg, actions);
             w.cells[r].row.order.batch.Some? && w.cells[r'].row.order.batch == w.cells[r].row.order.batch
    ensures var w := Execute(cfg, actions);
            var a, b := w.cells[r].row.order, w.cells[r'].row.order;
            a.batch.value in w.batches && ApartInSeed(w.batches[a.batch.value], r, a, r', b)
  {
    RunsKnowTheirBatch(cfg, actions, r);
    RunsKnowTheirBatch(cfg, actions, r');
    var w := Execute(cfg, actions);
    var a, b := w.cells[r].row.order, w.cells[r'].row.order;
    TwoOfABatch(w.batches[a.batch.value], r, a, r', b);
  }

  /*********************************************** Readers ***********************************************/

  // What a filter selects of a run's log at the moments `times` of an execution.
  ghost function SelectedAt(cfg: Config, actions: seq<Action>, times: seq<nat>, r: nat, f: Filter): seq<seq<nat>>
    requires forall i | 0 <= i < |times| :: times[i] <= |actions| && r in Execute(cfg, actions[..times[i]]).cells
  {
    seq(|times|, i requires 0 <= i < |times| => Selected(f, Execute(cfg, actions[..times[i]]).cells[r].log))
  }

  /** A client that pages through a run's events while the worker keeps appending, going on from
      what it has received, gets for any filter and page size a prefix of what the filter selects in
      the end: nothing is skipped or repeated. A client that strides on by its page size does exactly
      when no read found rows past its offset after one that found too few to fill its page. */
  lemma ReadersOfAGrowingLog(cfg: Config, actions: seq<Action>, times: seq<nat>, r: nat, f: Filter, limit: nat)
    requires 0 < limit && times != []
    requires forall i | 0 <= i < |times| :: times[i] <= |actions| && r in Execute(cfg, actions[..times[i]]).cells
    requires forall i, j | 0 <= i < j < |times| :: times[i] <= times[j]
    ensures var seen := SelectedAt(cfg, actions, times, r, f);
            && ReadOn(seen, limit, 0, 0) <= seen[|seen| - 1]
            && (Stride(seen, limit, 0, 0) <= seen[|seen| - 1] <==> NothingPastShortPages(seen, limit, 0, 0))
  {
    var seen := SelectedAt(cfg, actions, times, r, f);
    SelectionsGrow(cfg, actions, times, r, f);
    ReadingOnSkipsNothing(seen, seen[|seen| - 1], limit, 0, 0);
    StridingSkipsNothingExactlyWhen(seen, seen[|seen| - 1], limit, 0, 0);
    WindowAtTheStart(ReadOn(seen, limit, 0, 0), seen[|seen| - 1]);
    WindowAtTheStart(Stride(seen, limit, 0, 0), seen[|seen| - 1]);
  }

  /** A client that goes on from what it has received, and whose last page was short and was read
      when the run had already ended, has everything: what the filter selects from then on. */
  lemma ReadersOfAFinishedLogAreDone(cfg: Config, actions: seq<Action>, times: seq<nat>, r: nat, f: Filter, limit: nat,
                                     end: nat)
    requires times != []
    requires forall i | 0 <= i < |times| :: times[i] <= |actions| && r in Execute(cfg, actions[..times[i]]).cells
    requires forall i, j | 0 <= i < j < |times| :: times[i] <= times[j]
    requires |LastPage(SelectedAt(cfg, actions, times, r, f), limit, 0, 0)| < limit
    requires Terminal(Execute(cfg, actions[..times[|times| - 1]]).cells[r].row.status)
    requires times[|times| - 1] <= end <= |actions| && r in Execute(cfg, actions[..end]).cells
    ensures ReadOn(SelectedAt(cfg, actions, times, r, f), limit, 0, 0)
            == Selected(f, Execute(cfg, actions[..end]).cells[r].log)
  {
    var seen := SelectedAt(cfg, actions, times, r, f);
    var last := seen[|seen| - 1];
    SelectionsGrow(cfg, actions, times, r, f);
    ReadingOnSkipsNothing(seen, last, limit, 0, 0);
    ReadingOnCatchesUp(seen, last, limit, 0, 0);
    WindowAtTheStart(ReadOn(seen, limit, 0, 0), last);
    EndedLogsStay(cfg, actions, times[|times| - 1], end, r);
  }

  lemma EndedLogsStay(cfg: Config, actions: seq<Action>, i: nat, j: nat, r: nat)
    requires i <= j <= |actions|
    requires r in Execute(cfg, actions[..i]).cells && r in Execute(cfg, actions[..j]).cells
    requires Terminal(Execute(cfg, actions[..i]).cells[r].row.status)
    ensures Execute(cfg, actions[..j]).cells[r].log == Execute(cfg, actions[..i]).cells[r].log
  {
    EveryStateIsGood(cfg, actions[..i]);
    assert RunInv(cfg, Execute(cfg, actions[..i]), r);
    ExecutionsOnlyMoveForward(cfg, actions, i, j);
  }

  /** What a client that strides on can do: if it takes a page that is not full for the end only
      once the run has ended, it skips nothing either. */
  lemma StridersWhoWaitSkipNothing(cfg: Config, actions: seq<Action>, times: seq<nat>, r: nat, f: Filter, limit: nat)
    requires 0 < limit && times != []
    requires forall i | 0 <= i < |times| :: times[i] <= |actions| && r in Execute(cfg, actions[..times[i]]).cells
    requires forall i, j | 0 <= i < j < |times| :: times[i] <= times[j]
    requires forall i | 0 <= i < |times| ::
               || i * limit + limit <= |SelectedAt(cfg, actions, times, r, f)[i]|
               || Terminal(Execute(cfg, actions[..times[i]]).cells[r].row.status)
    ensures var seen := SelectedAt(cfg, actions, times, r, f); Stride(seen, limit, 0, 0) <= seen[|seen| - 1]
  {
    var seen := SelectedAt(cfg, actions, times, r, f);
    forall i, j | 0 <= i < j < |seen| && |seen[i]| < StrideOffset(limit, 0, 0, i) + limit
      ensures |seen[j]| <= StrideOffset(limit, 0, 0, j)
    {
      StrideOffsetIs(limit, 0, 0, i);
      EndedLogsStay(cfg, actions, times[i], times[j], r);
      LaterStrides(limit, 0, 0, i, j);
    }
    ReadersOfAGrowingLog(cfg, actions, times, r, f, limit);
  }

  lemma SelectedLater(cfg: Config, actions: seq<Action>, i: nat, j: nat, r: nat, f: Filter)
    requires i <= j <= |actions|
    requires r in Execute(cfg, actions[..i]).cells && r in Execute(cfg, actions[..j]).cells
    ensures Selected(f, Execute(cfg, actions[..i]).cells[r].log) <= Selected(f, Execute(cfg, actions[..j]).cells[r].log)
  {
    EveryStateIsGood(cfg, actions[..i]);
    assert RunInv(cfg, Execute(cfg, actions[..i]), r);
    ExecutionsOnlyMoveForward(cfg, actions, i, j);
    SelectionGrows(f, Execute(cfg, actions[..i]).cells[r].log, Execute(cfg, actions[..j]).cells[r].log);
  }

  lemma SelectionsGrow(cfg: Config, actions: seq<Action>, times: seq<nat>, r: nat, f: Filter)
    requires forall i | 0 <= i < |times| :: times[i] <= |actions| && r in Execute(cfg, actions[..times[i]]).cells
    requires forall i, j | 0 <= i < j < |times| :: times[i] <= times[j]
    ensures var seen := SelectedAt(cfg, actions, times, r, f);
            times != [] ==> Growing(seen, seen[|seen| - 1]) && Distinct(seen[|seen| - 1])
  {
    var seen := SelectedAt(cfg, actions, times, r, f);
    forall i, j | 0 <= i <= j < |seen| ensures seen[i] <= seen[j] {
      SelectedLater(cfg, actions, times[i], times[j], r, f);
    }
    forall i | 0 <= i < |seen| ensures Distinct(seen[i]) {
      AscendingHolds(Matching(f, Execute(cfg, actions[..times[i]]).cells[r].log));
    }
  }

  lemma WindowAtTheStart(part: seq<nat>, rows: seq<nat>)
    ensures Window(part, rows, 0) <==> part <= rows
  {
    if Window(part, rows, 0) {
      assert part == rows[..|part|];
    }
  }
}
