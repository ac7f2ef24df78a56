/**
 What workers can do in an execution: every course that the job of a run can take is taken by some
 execution, whatever has happened before.
 */
module Reachability {
  import opened Runner
  import opened Runs
  import opened RunProperties
  import opened World
  import opened WorkerLoop

  // The action that takes a step of a run's machine.
  function ActionFor(r: nat, act: CellAct, entropy: int): Action {
    if act == RequestCancel then CancelRun(r) else WorkerStep(r, act, entropy)
  }

  function ActionsFor(r: nat, acts: seq<CellAct>, entropy: int): seq<Action> {
    seq(|acts|, i requires 0 <= i < |acts| => ActionFor(r, acts[i], entropy))
  }

  lemma LastAction(cfg: Config, actions: seq<Action>, a: Action)
    ensures Execute(cfg, actions + [a]) == Apply(cfg, Execute(cfg, actions), a)
  {
    assert (actions + [a])[..|actions|] == actions;
  }

  lemma OneStepOfARun(cfg: Config, actions: seq<Action>, r: nat, act: CellAct, entropy: int)
    requires r in Execute(cfg, actions).cells && AfterFetch(act)
    ensures var w := Execute(cfg, actions + [ActionFor(r, act, entropy)]);
            r in w.cells && w.cells[r] == CellStep(cfg.setup, Execute(cfg, actions).cells[r], act)
  {
    LastAction(cfg, actions, ActionFor(r, act, entropy));
  }

  // Steps of one run's machine can be taken in an execution.
  lemma {:induction false} StepsOfARun(cfg: Config, actions: seq<Action>, r: nat, acts: seq<CellAct>, entropy: int)
    requires r in Execute(cfg, actions).cells && forall i | 0 <= i < |acts| :: AfterFetch(acts[i])
    ensures var w := Execute(cfg, actions + ActionsFor(r, acts, entropy));
            r in w.cells && w.cells[r] == CellAfter(cfg.setup, Execute(cfg, actions).cells[r], acts)
    decreases |acts|
  {
    if acts == [] {
      assert actions + ActionsFor(r, acts, entropy) == actions;
    } else {
      var one := actions + [ActionFor(r, acts[0], entropy)];
      OneStepOfARun(cfg, actions, r, acts[0], entropy);
      StepsOfARun(cfg, one, r, acts[1..], entropy);
      assert actions + ActionsFor(r, acts, entropy) == one + ActionsFor(r, acts[1..], entropy);
    }
  }

  lemma FetchIsApplied(cfg: Config, w: World, r: nat, entropy: int)
    requires r in w.cells && w.cells[r].row.order.project in w.projects
    ensures Apply(cfg, w, WorkerStep(r, Fetch(map[], 0), entropy))
            == StepCell(cfg, w, r, Fetch(w.projects[w.cells[r].row.order.project].spec, entropy))
  {
  }

  lemma FetchingARun(cfg: Config, actions: seq<Action>, r: nat, entropy: int)
    requires var w := Execute(cfg, actions); r in w.cells && w.cells[r].row.order.project in w.projects
    ensures var w, w' := Execute(cfg, actions), Execute(cfg, actions + [WorkerStep(r, Fetch(map[], 0), entropy)]);
            var live := w.projects[w.cells[r].row.order.project].spec;
            r in w'.cells && w'.cells[r] == CellStep(cfg.setup, w.cells[r], Fetch(live, entropy))
  {
    LastAction(cfg, actions, WorkerStep(r, Fetch(map[], 0), entropy));
    FetchIsApplied(cfg, Execute(cfg, actions), r, entropy);
  }

  // Fetching a run and then going on with it.
  lemma ExecutingARun(cfg: Config, actions: seq<Action>, r: nat, acts: seq<CellAct>, entropy: int)
    returns (later: seq<Action>)
    requires var w := Execute(cfg, actions); r in w.cells && w.cells[r].row.order.project in w.projects
    requires forall i | 0 <= i < |acts| :: AfterFetch(acts[i])
    ensures var w, w' := Execute(cfg, actions), Execute(cfg, actions + later);
            var live := w.projects[w.cells[r].row.order.project].spec;
            && r in w'.cells
            && w'.cells[r] == CellAfter(cfg.setup, CellStep(cfg.setup, w.cells[r], Fetch(live, entropy)), acts)
  {
    var fetched := actions + [WorkerStep(r, Fetch(map[], 0), entropy)];
    FetchingARun(cfg, actions, r, entropy);
    StepsOfARun(cfg, fetched, r, acts, entropy);
    later := [WorkerStep(r, Fetch(map[], 0), entropy)] + ActionsFor(r, acts, entropy);
    assert actions + later == fetched + ActionsFor(r, acts, entropy);
  }

  // The course of a run that is picked up now.
  ghost function CourseNow(cfg: Config, w: World, r: nat, entropy: int, polls: Polls): Course
    requires r in w.cells && w.cells[r].row.order.project in w.projects
  {
    var o := w.cells[r].row.order;
    CourseOf(cfg.setup, LaunchOf(cfg.setup, JobOf(o, w.projects[o.project].spec, entropy)), polls)
  }

  /** A run that waits to be picked up can be executed, from any reachable state on, just as its job would
      execute it: for every course that does not hang there are actions of its worker and of a canceller
      after which its row and log are those that the course ends with. */
  lemma WaitingRunsCanBeExecuted(cfg: Config, actions: seq<Action>, r: nat, entropy: int, polls: Polls)
    returns (later: seq<Action>)
    requires var w := Execute(cfg, actions);
             && r in w.cells && Waiting(w.cells[r]) && w.cells[r].row.order.project in w.projects
             && CourseNow(cfg, w, r, entropy, polls).verdict != NoEnd
    ensures var w, w' := Execute(cfg, actions), Execute(cfg, actions + later);
            r in w'.cells && HasEndedAs(w'.cells[r], CourseNow(cfg, w, r, entropy, polls))
  {
    var w := Execute(cfg, actions);
    var c := w.cells[r];
    var live := w.projects[c.row.order.project].spec;
    var acts := StepsOfTheCourse(cfg.setup, c, live, entropy, polls);
    later := ExecutingARun(cfg, actions, r, acts, entropy);
  }
}
