/**
 The API's write operations as programs over the tables.

 An operation that commits more than once, or commits after it has read, is made of one method for
 each part between two commits. Each part is proved to do to the tables what the action of the same
 part does to a world, in whatever state others have left them; so all that holds of every sequence
 of actions holds of these programs, however their parts are interleaved. The operation as a whole is
 stated for the case that nobody commits in between.
 */
module Services {
  import opened Wrappers
  import opened Json
  import opened Runner
  import opened Runs
  import opened Projects
  import opened Submissions
  import opened World

  /** A project row as a session holds it, changed field by field before it is committed. */
  class ProjectRow {
    var spec: Spec
    var version: int
    var inputsVersion: int
    var base: Option<nat>

    constructor (p: Project)
      ensures Columns() == p
    {
      spec, version, inputsVersion, base := p.spec, p.version, p.inputsVersion, p.base;
    }

    function Columns(): Project
      reads this
    {
      Project(spec, version, inputsVersion, base)
    }
  }

  // One project's spec has been replaced: one version on, and with the version as the one that last changed
  // the inputs if its components, routes, tours or trains differ, nulls apart.
  ghost predicate Replaces(before: Table, id: nat, spec: Spec, after: Table) {
    && id in before
    && var row := before[id];
    var same := && SameModuloNulls(Get(row.spec, "components"), Get(spec, "components"))
                && SameModuloNulls(Get(row.spec, "routes"), Get(spec, "routes"))
                && SameModuloNulls(Get(row.spec, "tours"), Get(spec, "tours"))
                && SameModuloNulls(Get(row.spec, "trains"), Get(spec, "trains"));
    after == before[id := Project(spec, row.version + 1, if same then row.inputsVersion else row.version + 1, row.base)]
  }

  lemma SavesReplace(table: Table, id: nat, spec: Spec, expected: Option<int>)
    ensures Save(table, id, spec, expected).0.Saved? ==> Replaces(table, id, spec, Save(table, id, spec, expected).1)
  {
    if id in table {
      InputsDifferDecides(table[id].spec, spec);
    }
  }

  datatype SubmitResult = Submitted(first: nat) | NoProject | Invalid | NoTarget

  /** The committed tables, and the world they are those of: what the actions so far have made. */
  class Database {
    const cfg: Config
    var projects: Table
    var cells: map<nat, Cell>
    ghost var world: World

    ghost predicate Valid()
      reads this
    {
      && projects == world.projects && cells == world.cells
      && projects.Keys <= world.history.Keys && cells.Keys <= world.runIds
    }

    constructor (cfg: Config)
      ensures Valid() && world == EMPTY && this.cfg == cfg
    {
      this.cfg := cfg;
      projects, cells, world := map[], map[], EMPTY;
    }

    /** Replaces a project's spec, unless the project is missing or has moved on from the version
        that is expected; then nothing changes. */
    method UpdateProject(id: nat, spec: Spec, expected: Option<int>) returns (result: SaveResult)
      requires Valid()
      modifies this`projects, this`world
      ensures Valid() && world == SaveAction(old(world), id, spec, expected)
      ensures (result, projects) == Save(old(projects), id, spec, expected)
      ensures !result.Saved? ==> world == old(world)
      ensures result == NotFound <==> id !in old(projects)
      ensures result.Stale? <==> id in old(projects) && expected.Some? && expected.value != old(projects)[id].version
      ensures result.Stale? ==> result.version == old(projects)[id].version
      ensures result.Saved? ==> Replaces(old(projects), id, spec, projects)
    {
      SavesReplace(projects, id, spec, expected);
      world := SaveAction(world, id, spec, expected);
      if id !in projects {
        return NotFound;
      }
      var row := new ProjectRow(projects[id]);
      if expected.Some? && expected.value != row.version {
        return Stale(row.version);
      }
      row.version := row.version + 1;
      if InputsDiffer(row.spec, spec) {
        row.inputsVersion := row.version;
      }
      row.spec := spec;
      projects := projects[id := row.Columns()];
      result := Saved(row.Columns());
    }

    /** The base to link a new project to, if it is made from another one that is there. */
    method LookUpBase(ghost call: nat, ghost spec: Spec, from: Option<nat>) returns (found: bool, base: Option<nat>)
      requires Valid() && call !in world.calls
      modifies this`world
      ensures Valid() && world == LookUp(old(world), call, spec, from)
      ensures found <==> from.None? || from.value in projects
      ensures found ==> call in world.calls && world.calls[call] == Creating(spec, base)
    {
      world := LookUp(world, call, spec, from);
      found, base := true, None;
      if from.Some? {
        if from.value !in projects {
          return false, None;
        }
        var parent := new ProjectRow(projects[from.value]);
        base := if parent.base.Some? then parent.base else from;
      }
    }

    /** Inserts a project under a fresh id. Its foreign key fails, and no table changes, if the base
        that was looked up has been deleted since. */
    method InsertProject(ghost call: nat, id: nat, spec: Spec, base: Option<nat>) returns (committed: bool)
      requires Valid() && id !in world.history
      requires call in world.calls && world.calls[call] == Creating(spec, base)
      modifies this`projects, this`world
      ensures Valid() && world == Create(old(world), call, id)
      ensures committed <==> base.None? || base.value in old(projects)
      ensures projects == if committed then AddProject(old(projects), id, spec, base) else old(projects)
    {
      world := Create(world, call, id);
      committed := base.None? || base.value in projects;
      if committed {
        projects := AddProject(projects, id, spec, base);
      }
    }

    /** Stores a project under a fresh id, as a scenario of `from`'s family if that is given. */
    method CreateProject(ghost call: nat, id: nat, spec: Spec, from: Option<nat>) returns (found: bool)
      requires Valid() && id !in world.history && call !in world.calls && Flat(projects)
      modifies this`projects, this`world
      ensures Valid() && world == Create(LookUp(old(world), call, spec, from), call, id)
      ensures found <==> from.None? || from.value in old(projects)
      ensures found && from.None? ==> projects == old(projects)[id := Project(spec, 1, 1, None)]
      ensures found && from.Some? ==>
                var link := old(projects)[from.value].base;
                projects == old(projects)[id := Project(spec, 1, 1, if link.Some? then link else from)]
      ensures !found ==> projects == old(projects)
      ensures Flat(projects)
    {
      var base;
      found, base := LookUpBase(call, spec, from);
      if found {
        var committed := InsertProject(call, id, spec, base);
        assert committed;
      }
    }

    /** Deletes a project with its runs; its scenarios stay, as projects of their own. */
    method DeleteProject(id: nat) returns (found: bool)
      requires Valid()
      modifies this`projects, this`cells, this`world
      ensures Valid() && world == if found then Delete(old(world), id) else old(world)
      ensures found <==> id in old(projects)
      ensures !found ==> projects == old(projects)
      ensures found ==>
                && projects.Keys == old(projects).Keys - {id}
                && (forall q | q in projects ::
                      projects[q] == if old(projects)[q].base == Some(id) then old(projects)[q].(base := None)
                                     else old(projects)[q])
      ensures forall r :: r in cells <==> r in old(cells) && !(found && old(cells)[r].row.order.project == id)
      ensures forall r | r in cells :: cells[r] == old(cells)[r]
    {
      if id !in projects {
        return false;
      }
      world := Delete(world, id);
      projects := RemoveProject(projects, id);
      cells := map r | r in cells && cells[r].row.order.project != id :: cells[r];
      found := true;
    }

    /** Asks a run to stop, whatever its status. */
    method RequestCancel(run: nat) returns (found: bool)
      requires Valid()
      modifies this`cells, this`world
      ensures Valid() && world == Apply(cfg, old(world), CancelRun(run))
      ensures found <==> run in old(cells)
      ensures !found ==> cells == old(cells)
      ensures found ==>
                var c := old(cells)[run];
                cells == old(cells)[run := c.(row := c.row.(cancelRequested := true))]
    {
      world := Apply(cfg, world, CancelRun(run));
      found := run in cells;
      if found {
        cells := cells[run := cells[run].(row := cells[run].row.(cancelRequested := true))];
      }
    }

    /** Deletes a run and its events. */
    method RemoveRun(run: nat) returns (found: bool)
      requires Valid()
      modifies this`cells, this`world
      ensures Valid() && world == Apply(cfg, old(world), DeleteRun(run))
      ensures found <==> run in old(cells)
      ensures cells == old(cells) - {run}
    {
      world := Apply(cfg, world, DeleteRun(run));
      found := run in cells;
      cells := map r | r in cells && r != run :: cells[r];
    }

    /** What a submission reads: the spec and version of a project that is there and valid, and the
        target they give. */
    method ReadProject(ghost call: nat, project: nat, request: Request)
      returns (refusal: Option<SubmitResult>, spec: Spec, version: int, target: int)
      requires Valid() && Accepted(request) && call !in world.calls
      modifies this`world
      ensures Valid() && world == Read(cfg, old(world), call, project, request)
      ensures refusal == Some(NoProject) <==> project !in projects
      ensures refusal == Some(Invalid) <==> project in projects && !cfg.valid(projects[project].spec)
      ensures refusal == Some(NoTarget) <==> project in projects && cfg.valid(projects[project].spec)
                                             && Target(request.until, projects[project].spec, cfg.setup.horizon).None?
      ensures refusal.Some? ==> !refusal.value.Submitted? && world == old(world)
      ensures refusal.None? ==>
                && project in projects && spec == projects[project].spec && version == projects[project].version
                && Target(request.until, spec, cfg.setup.horizon) == Some(target)
                && call in world.calls && world.calls[call] == Submitting(project, spec, version, target, request)
    {
      world := Read(cfg, world, call, project, request);
      spec, version, target := map[], 0, 0;
      if project !in projects {
        return Some(NoProject), spec, version, target;
      }
      var row := projects[project];
      if !cfg.valid(row.spec) {
        return Some(Invalid), spec, version, target;
      }
      var fixed := Target(request.until, row.spec, cfg.setup.horizon);
      if fixed.None? {
        return Some(NoTarget), spec, version, target;
      }
      return None, row.spec, row.version, fixed.value;
    }

    /** Inserts the rows of a submission under fresh ids. Their foreign key fails, and no table changes,
        if the project has been deleted since it was read. */
    method InsertRunRows(ghost call: nat, project: nat, spec: Spec, version: int, target: int, request: Request,
                         draw: int, ids: seq<nat>, batch: nat) returns (committed: bool)
      requires Valid() && call in world.calls
      requires world.calls[call] == Submitting(project, spec, version, target, request)
      requires Insertable(world, request, ids, draw, batch)
      modifies this`cells, this`world
      ensures Valid() && world == InsertRuns(old(world), call, ids, draw, batch)
      ensures committed <==> project in projects
      ensures !committed ==> cells == old(cells)
      ensures committed ==>
                && call in world.calls && world.calls[call] == Enqueuing(ids, 0)
                && HasAdded(old(cells), ids, CallOrders(old(world).calls[call], draw, batch), cells)
    {
      ghost var before := world;
      world := InsertRuns(world, call, ids, draw, batch);
      committed := project in projects;
      if committed {
        var orders := Orders(project, spec, version, target, request, FirstSeed(request, draw), batch);
        AddRunsAdds(cells, ids, orders);
        cells := AddRuns(cells, ids, orders);
      }
    }

    /** Enqueues the job of the next run of a submission, unless that run has been deleted since. */
    method EnqueueJob(ghost call: nat, ghost ids: seq<nat>, ghost next: nat, id: nat) returns (found: bool)
      requires Valid() && call in world.calls && world.calls[call] == Enqueuing(ids, next)
      requires next < |ids| && ids[next] == id
      modifies this`cells, this`world
      ensures Valid() && world == EnqueueOne(cfg, old(world), call)
      ensures found <==> id in old(cells)
      ensures cells == if found then old(cells)[id := old(cells)[id].(enqueued := true)] else old(cells)
      ensures found ==> call in world.calls && world.calls[call] == Enqueuing(ids, next + 1)
    {
      world := EnqueueOne(cfg, world, call);
      found := id in cells;
      if found {
        cells := cells[id := cells[id].(enqueued := true)];
      }
    }

    /** Records the job ids of a whole submission in one commit, which fails if a run of it is gone. */
    method RecordJobIds(ghost call: nat, ids: seq<nat>) returns (committed: bool)
      requires Valid() && call in world.calls && world.calls[call] == Enqueuing(ids, |ids|)
      modifies this`cells, this`world
      ensures Valid() && world == RecordJobs(cfg, old(world), call)
      ensures committed <==> forall i | 0 <= i < |ids| :: ids[i] in old(cells)
      ensures if committed then HasJobs(old(cells), ids, cells) else cells == old(cells)
    {
      world := RecordJobs(cfg, world, call);
      committed := forall i | 0 <= i < |ids| :: ids[i] in cells;
      if committed {
        cells := map r | r in cells :: if r in ids then WithJob(cells[r], r) else cells[r];
      }
    }

    /** Enqueues the jobs of a submission one by one, all of its runs being there. */
    method EnqueueJobs(ghost call: nat, ids: seq<nat>)
      requires Valid() && call in world.calls && world.calls[call] == Enqueuing(ids, 0)
      requires forall i | 0 <= i < |ids| :: ids[i] in cells
      modifies this`cells, this`world
      ensures Valid() && world == EnqueueAll(cfg, old(world), call, |ids|)
      ensures call in world.calls && world.calls[call] == Enqueuing(ids, |ids|)
      ensures HasEnqueued(old(cells), ids, |ids|, cells)
    {
      for i := 0 to |ids|
        invariant Valid() && world == EnqueueAll(cfg, old(world), call, i)
        invariant call in world.calls && world.calls[call] == Enqueuing(ids, i)
        invariant HasEnqueued(old(cells), ids, i, cells)
      {
        OneMoreEnqueued(old(cells), ids, i, cells);
        var found := EnqueueJob(call, ids, i, ids[i]);
      }
    }

    /** All that a submission does after it has read its project, which is still there. */
    method QueueRuns(ghost call: nat, project: nat, spec: Spec, version: int, target: int, request: Request,
                     draw: int, ids: seq<nat>, batch: nat)
      requires Valid() && call in world.calls
      requires world.calls[call] == Submitting(project, spec, version, target, request)
      requires Insertable(world, request, ids, draw, batch) && project in projects
      modifies this`cells, this`world
      ensures Valid() && world == QueueActions(cfg, old(world), call, draw, ids, batch)
      ensures HasQueued(old(cells), ids, CallOrders(old(world).calls[call], draw, batch), cells)
    {
      ghost var before, orders := cells, CallOrders(world.calls[call], draw, batch);
      assert forall i | 0 <= i < |ids| :: ids[i] !in before;
      var committed := InsertRunRows(call, project, spec, version, target, request, draw, ids, batch);
      ghost var inserted := cells;
      EnqueueJobs(call, ids);
      ghost var enqueued := cells;
      committed := RecordJobIds(call, ids);
      AddedAndQueued(before, ids, orders, inserted, enqueued, cells);
    }

    /** Queues a run, or a batch of them under fresh ids, of a project that is there, is valid and has
        a target; otherwise nothing changes. Every run of the batch ends up with its job queued and
        recorded. */
    method SubmitRun(ghost call: nat, project: nat, request: Request, draw: int, ids: seq<nat>, batch: nat)
      returns (result: SubmitResult)
      requires Valid() && Accepted(request) && call !in world.calls && Insertable(world, request, ids, draw, batch)
      modifies this`cells, this`world
      ensures Valid() && world == SubmitActions(cfg, old(world), call, project, request, draw, ids, batch)
      ensures result.NoProject? <==> project !in projects
      ensures result.Invalid? <==> project in projects && !cfg.valid(projects[project].spec)
      ensures result.NoTarget? <==> project in projects && cfg.valid(projects[project].spec)
                                    && Target(request.until, projects[project].spec, cfg.setup.horizon).None?
      ensures !result.Submitted? ==> world == old(world)
      ensures result.Submitted? ==>
                && result.first == ids[0]
                && var row := projects[project];
                   var target := Target(request.until, row.spec, cfg.setup.horizon).value;
                   QueuesAsAsked(old(cells), ids, project, row.spec, row.version, target, request, draw, batch, cells)
    {
      var refusal, spec, version, target := ReadProject(call, project, request);
      if refusal.Some? {
        NothingToEnqueue(cfg, world, call, |ids|);
        return refusal.value;
      }
      QueueRuns(call, project, spec, version, target, request, draw, ids, batch);
      QueuedAsAsked(old(cells), ids, project, spec, version, target, request, draw, batch, cells);
      result := Submitted(ids[0]);
    }
  }

  // The runs of these orders have been added, enqueued, and given the ids of their jobs.
  ghost predicate HasQueued(before: map<nat, Cell>, ids: seq<nat>, orders: seq<Order>, after: map<nat, Cell>)
    requires |ids| == |orders|
  {
    && (forall r :: r in after <==> r in before || r in ids)
    && (forall r | r in before :: r in after && after[r] == before[r])
    && (forall i | 0 <= i < |ids| :: ids[i] in after && after[ids[i]] == QueuedCell(orders[i], ids[i]))
  }

  // These runs have been added: queued, with their jobs, and with all that was asked for, read and fixed
  // recorded in their rows; their seeds count up from the one asked for, or else from the one drawn.
  ghost predicate QueuesAsAsked(before: map<nat, Cell>, ids: seq<nat>, project: nat, spec: Spec, version: int,
                                target: int, request: Request, draw: int, batch: nat, after: map<nat, Cell>)
  {
    && (forall r :: r in after <==> r in before || r in ids)
    && (forall r | r in before :: r in after && after[r] == before[r])
    && (forall i | 0 <= i < |ids| ::
          && ids[i] in after && after[ids[i]].enqueued && after[ids[i]].log == map[]
          && after[ids[i]].row
             == Row(Order(project, request.until, Some(target), request.chunkSize,
                          Some((match request.seed case Some(asked) => asked case None => draw) + i),
                          if |ids| == 1 then None else Some(batch), Some(spec), Some(version)),
                    QUEUED, None, Some(ids[i]), false, false, false, false))
  }

  lemma QueuedAsAsked(before: map<nat, Cell>, ids: seq<nat>, project: nat, spec: Spec, version: int, target: int,
                      request: Request, draw: int, batch: nat, after: map<nat, Cell>)
    requires Accepted(request) && 0 <= draw < DrawBound(request.seeds) && |ids| == request.seeds
    requires HasQueued(before, ids, Orders(project, spec, version, target, request, FirstSeed(request, draw), batch),
                       after)
    ensures QueuesAsAsked(before, ids, project, spec, version, target, request, draw, batch, after)
  {
    BatchesAreExact(project, spec, version, target, request, draw, batch);
  }

  // The first `n` of these runs have been enqueued.
  ghost predicate HasEnqueued(before: map<nat, Cell>, ids: seq<nat>, n: nat, after: map<nat, Cell>)
    requires n <= |ids|
  {
    && after.Keys == before.Keys
    && forall r | r in after :: after[r] == if r in ids[..n] then before[r].(enqueued := true) else before[r]
  }

  lemma OneMoreEnqueued(before: map<nat, Cell>, ids: seq<nat>, n: nat, after: map<nat, Cell>)
    requires n < |ids| && HasEnqueued(before, ids, n, after) && ids[n] in before
    ensures HasEnqueued(before, ids, n + 1, after[ids[n] := after[ids[n]].(enqueued := true)])
  {
    assert ids[..n + 1] == ids[..n] + [ids[n]];
  }

  // These runs have been given the ids of their jobs.
  ghost predicate HasJobs(before: map<nat, Cell>, ids: seq<nat>, after: map<nat, Cell>) {
    && after.Keys == before.Keys
    && forall r | r in after :: after[r] == if r in ids then WithJob(before[r], r) else before[r]
  }

  lemma AddedAndQueued(before: map<nat, Cell>, ids: seq<nat>, orders: seq<Order>, inserted: map<nat, Cell>,
                       enqueued: map<nat, Cell>, after: map<nat, Cell>)
    requires |ids| == |orders| && forall i | 0 <= i < |ids| :: ids[i] !in before
    requires HasAdded(before, ids, orders, inserted) && HasEnqueued(inserted, ids, |ids|, enqueued)
    requires HasJobs(enqueued, ids, after)
    ensures HasQueued(before, ids, orders, after)
  {
    assert ids[..|ids|] == ids;
  }

  ghost function EnqueueAll(cfg: Config, w: World, call: nat, n: nat): World {
    if n == 0 then w else EnqueueOne(cfg, EnqueueAll(cfg, w, call, n - 1), call)
  }

  lemma {:induction false} NothingToEnqueue(cfg: Config, w: World, call: nat, n: nat)
    requires call !in w.calls
    ensures EnqueueAll(cfg, w, call, n) == w
  {
    if n == 0 {
    } else {
      NothingToEnqueue(cfg, w, call, n - 1);
    }
  }

  // The actions of a submission, one after the other: those after its read, and all of them.
  ghost function QueueActions(cfg: Config, w: World, call: nat, draw: int, ids: seq<nat>, batch: nat): World {
    RecordJobs(cfg, EnqueueAll(cfg, InsertRuns(w, call, ids, draw, batch), call, |ids|), call)
  }

  ghost function SubmitActions(cfg: Config, w: World, call: nat, project: nat, request: Request, draw: int,
                               ids: seq<nat>, batch: nat): World
  {
    QueueActions(cfg, Read(cfg, w, call, project, request), call, draw, ids, batch)
  }

  // A run whose job's id has been recorded.
  function WithJob(c: Cell, job: nat): Cell {
    c.(row := c.row.(jobId := Some(job)))
  }

  // A run that was inserted and enqueued, with its job's id recorded.
  function QueuedCell(order: Order, job: nat): Cell {
    WithJob(NewCell(order).(enqueued := true), job)
  }
}
