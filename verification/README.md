# A verified model of spur-api

spur-api stores railway simulation projects, submits runs of them, executes the runs in a
background worker, and lets clients read the results while they are being written. This project
models its two cores in Dafny and proves what they promise:

- **the chunked run executor**: a simulation driven by repeated bounded `model.run(until=...)`
  calls, whose events pass through a shared batch, are numbered, and are committed with the clock,
  and which cancellation or an error can cut at any chunk;
- **the project and run store**: versioned saves with optimistic concurrency, the version at which
  the simulation inputs last changed, snapshots and seeds of submitted runs, scenario families,
  cooperative cancellation, and paging through a log that is still growing.

`dafny verify dfyconfig.toml` checks everything.

## How the files fit together

| file | holds |
|---|---|
| `Json.dfy` | project specs as JSON, the null-free normal form, and the relation it decides |
| `Chains.dfy`, `NullEdits.dfy` | edits of one null key at a time, and that they reach exactly the values that relation holds of |
| `Simulation.dfy` | spur's model as a deterministic event-queue machine; running in parts is running in one |
| `Runner.dfy` | horizon, chunk sizes, and the chunk loop as a function (`Drive`), against one uninterrupted run |
| `WorkerLoop.dfy` | the same loop as a program: model, shared batch, job callbacks, `RunSimulation` |
| `Runs.dfy`, `RunProperties.dfy` | one run's row, log and worker as a machine of commits, and what every order of its steps keeps |
| `Projects.dfy` | saves, histories, staleness, scenario links |
| `Submissions.dfy` | accepted requests and the rows of a batch |
| `Services.dfy` | the write operations as programs over the tables, one method for each part between two commits, which does what the action of that part does |
| `World.dfy`, `Executions.dfy` | all of it together: any interleaving of API calls and workers, and what holds over whole executions |
| `Paging.dfy` | the event query, and readers of a growing log |
| `Reachability.dfy` | that executions take every course a run's job can take |
| `Instances.dfy` | executions in which a striding client misses a row, a running run shows its locations, and a run is out of date with current inputs |

An execution is an arbitrary sequence of `World.Action`s from the empty database, one commit (or
one read that a later commit depends on) at a time. Histories (the spec at every version, the job a
worker read, ids ever used) are kept beside the tables for stating results; the program does not
store them.

Three results are about where the code does less than one might expect:

- The final locations are committed before the status is, so a reader can see them in the log of a
  run that is still `running`. `LocationsPrecedeCompletion` says for which jobs: exactly those whose
  model can be run to its target in chunks and has locations to report there
  (`LocationsCanPrecedeCompletion` is one). `LocationsByStatus` says that no queued, cancelled or
  failed run ever has them.
- A client that moves its offset on by the page size whether or not the page was full can miss
  events of a running run. `StridingCanSkip` is an execution in which it does;
  `StridingSkipsNothingExactlyWhen` gives the exact condition in terms of how many rows there were at
  each read. A client that goes on from what it has received never misses any, and neither does one
  that takes a page that is not full for the end only once the run has ended
  (`StridersWhoWaitSkipNothing`).
- A run can be out of date by its version although its inputs are the project's current ones.
  `RunsCanBeStaleWithCurrentInputs` is an execution in which one is;
  `StaleWithCurrentInputsExactly` says when: exactly if some version after the run's had other
  inputs, which have been changed back since.

The `run` docstring says that events produced before a cancellation are still flushed by a final
`on_chunk` call. In the code every chunk has been delivered by then, so that flush is empty unless
cancellation came before the first chunk, when it holds what starting the model reported
(`CancelFlushRepeatsNothing`).

## Assumptions

- spur is an arbitrary deterministic function of (spec, seed): what an event does, and what becomes
  pending, depends on the model's state only. A call may raise part-way or never return.
  `model.run` with a time that is not in the future raises, so a negative chunk size fails the run;
  zero counts as absent, as the code has it. The clock starts at 0, and starting a model is part of
  building it. `spur.validation.validate` is an arbitrary predicate.
- Each run's job executes once. Commits succeed unless a foreign key or a vanished row makes them
  fail, and write only the columns that changed. Ids are fresh.
- `delete_project`, `delete_run` and `request_cancel` read a row and then commit; what the commit
  does depends only on whether the row is there at that moment, so each is one action. A chunk's
  `model.run` and the commit after it are one action too, since the call touches nothing shared.
- A request, once accepted, is what `RunCreate` accepts; wall-clock times are present or absent.

## Model

| member | source | states |
|---|---|---|
| Json.NormalFormsDecide | spur_api/services/projects_service.py:21-31 | two values have one null-free form exactly when every key reads the same at every depth, absent reading as null, and lists agree by position |
| Json.WithoutNullsIdempotent | spur_api/services/projects_service.py:21-31 | normalising twice is normalising once |
| Json.SameModuloNullsIsAnEquivalence | spur_api/services/projects_service.py:21-31 | agreeing modulo nulls is reflexive, symmetric and transitive |
| NullEdits.EditsReachExactly | spur_api/services/projects_service.py:21-31 | two values agree modulo nulls exactly when writing null keys in and leaving them out, one at a time and at any depth, leads from one to the other |
| Json.NullKeysDoNotCount | spur_api/services/projects_service.py:21-31 | writing a null key in, or leaving one out, at any depth and path changes nothing |
| Simulation.Composition | spur_api/worker/runner.py:32-35 | running to a and then to b is running to b: same state, same events, same error, or no return |
| Simulation.RunInOrder | spur_api/worker/runner.py:98-105 | one call reports events in time order, from the clock it starts at and before the clock it reaches |
| Runner.HorizonsAgree | spur_api/worker/runner.py:17-24 | submission, the worker's fallback and the runner give one target, a requested 0 included, and one that is recorded stands whatever the settings have become; a derived one is the latest deletion time, attained, or the default |
| Runner.LaunchesAreOfSpecAndSeed | spur_api/worker/runner.py:65-96 | the model a run starts from is what the simulator builds from just this spec and this seed, at 0, with what starting it reported and scheduled; its target and chunk are the ones given, or derived; it fails only where one of these raises |
| Runner.DefaultChunkCount | spur_api/worker/runner.py:96 | without a size, a run of length T takes between N and 2N-1 chunks when T >= N, and T when T < N |
| Runner.DefaultSizeRoundsDown | spur_api/worker/runner.py:96 | the default chunk size is the target divided by the count and rounded down, but at least 1 |
| Runner.RequestedChunkCount | spur_api/worker/runner.py:96-103 | asking for chunks of size c gives as many `model.run` calls as it takes to cover the way in steps of c |
| Runner.OneDeliveryPerChunk | spur_api/worker/runner.py:98-109 | a completed run makes ceil(T/c) bounded calls, a cancelled one fewer, none more, calls that raise or hang included; every call that returns is followed by its delivery, and completed and cancelled runs make one more |
| Runner.ChunkedRefinesSingleShot | spur_api/worker/runner.py:89-109 | for every model, target, chunk size and poll answers, what is delivered is the uninterrupted run (then the locations) if completed, else that run cut at the last clock delivered |
| Runner.EndsAsSingleShot | spur_api/worker/runner.py:98-109 | an uncancelled chunked run completes, raises or hangs exactly as the single run does |
| Runner.ChunkSizeDoesNotMatter | spur_api/worker/runner.py:96-109 | two chunk sizes give the same outcome, events and final clock |
| WorkerLoop.Model.Run | spur_api/worker/runner.py:103 | a bounded call that ends leaves the model and the shared batch as `RunUntil` says, raising when it raises |
| WorkerLoop.RunJob.OnChunk | spur_api/worker/tasks.py:33-52 | after each call the log is everything delivered, numbered from 0, and the clock is the one delivered |
| WorkerLoop.SpurRunner.Run | spur_api/worker/runner.py:76-109 | the program's deliveries and outcome are exactly the course that `Drive` describes, and what is delivered is one uninterrupted run of the model built from its spec and seed up to the last clock, with the locations if completed |
| WorkerLoop.SpurRunner.RunChunks | spur_api/worker/runner.py:98-109 | the loop and final flush deliver what is left of the course, make the number of `model.run` calls that `OneDeliveryPerChunk` bounds, and terminate |
| WorkerLoop.RunSimulation | spur_api/worker/tasks.py:19-83 | the row ends completed, cancelled or failed as the course did; its log is that of the model built from the recorded spec and seed, or from the live spec and a drawn seed where none is recorded, up to its clock |
| WorkerLoop.UncancelledCourse | spur_api/worker/runner.py:98-109 | an uncancelled run that can finish completes with the single run's events and final locations |
| WorkerLoop.TheMachineTakesThisCourse | spur_api/worker/tasks.py:27-83 | what the program leaves behind is what the step machine leaves behind for some order of its steps |
| Runs.StepKeepsCellInv | spur_api/worker/tasks.py:27-83 | in every order of worker, canceller and submitter steps the rows are 0..n-1 and the stream cut at the committed clock |
| RunProperties.RunsOnlyMoveForward | spur_api/worker/tasks.py:27-83 | status goes queued, running, one end and stays; flag, timestamps and clock never go back; the log only grows at its end |
| RunProperties.StepMovesForward | spur_api/worker/tasks.py:70-83 | one step takes only the edges queued to running and running to an end |
| RunProperties.JobIdCommutes | spur_api/services/runs_service.py:98-102 | the submitter's late job-id commit commutes with every other step |
| RunProperties.CancellationIsBounded | spur_api/worker/runner.py:98-105 | after a run is asked to stop at most the call in flight still ends |
| RunProperties.CancelTakesEffectExactly | spur_api/services/runs_service.py:149-163 | whatever steps are still to come, a run that is asked to stop can complete exactly when no poll lies between it and its target and nothing on the way raises |
| RunProperties.CancelFlushRepeatsNothing | spur_api/worker/runner.py:99-101 | the flush on cancellation adds no row if a chunk was committed before, else exactly the start-up events |
| WorkerLoop.LocationsPrecedeCompletion | spur_api/worker/tasks.py:79-83 | a job can be seen with its locations while still running exactly when its model can be run to its target in chunks and has locations to report there |
| RunProperties.LogsAreInTimeOrder | spur_api/worker/tasks.py:33-52 | times do not decrease with seq, none is past the committed clock, and seq has no gaps |
| RunProperties.NewRowsFitTheirChunk | spur_api/worker/tasks.py:33-52 | rows added by a commit lie between the previous committed clock and the one committed with them |
| Projects.InputsDifferDecides | spur_api/services/projects_service.py:34-38 | inputs differ exactly when the components, the routes, the tours or the trains differ modulo nulls |
| Projects.SaveTracks | spur_api/services/projects_service.py:165-171 | a save moves `inputs_version` to the new version exactly when it changed components, routes, tours or trains modulo nulls, so it stays the largest version whose save did |
| Projects.CosmeticSavesKeepInputsVersion | spur_api/services/projects_service.py:165-168 | a save leaves it alone exactly when the new spec can be reached from the old by writing in and leaving out any number of null keys at any depth of the four sections, and by changes outside them |
| Projects.StaleExactlyWhenChanged | spur_api/schemas/run.py:85-89 | a version is below `inputs_version` exactly when a later save changed the inputs; otherwise its inputs are the current ones |
| Projects.StaleWithSameInputsExactly | spur_api/db/models.py:39-43 | a version whose inputs are the current ones is stale exactly when some later version had other inputs, since changed back |
| Projects.ScenariosJoinTheFamily | spur_api/services/projects_service.py:60-68 | a scenario made from a base is linked to it, one made from a scenario to that scenario's base; it is added to the set of projects that share that base, and every other family stays as it was |
| Submissions.DrawsAreTheAcceptedStarts | spur_api/services/runs_service.py:74-77 | the server draws exactly the first seeds the validator accepts: those from which all of at most 100 seeds fit a signed 64-bit column |
| Submissions.BatchesAreExact | spur_api/services/runs_service.py:79-94 | a batch has the size asked for, consecutive seeds from the one asked for or else drawn, all of which fit, and one spec, version, target and chunk size; a batch id iff several |
| Submissions.ReplaysAreAccepted | spur_api/services/runs_service.py:74-77 | asking again with the first seed of a submission is accepted and gives the same seeds, whatever is drawn |
| Submissions.AddRunsAdds | spur_api/services/runs_service.py:95-96 | the inserted runs are new, queued and exactly those of the batch |
| Services.Database.UpdateProject | spur_api/services/projects_service.py:142-174 | the program refuses exactly a missing project and a version moved on, changing nothing; else the spec is replaced one version on, with `inputs_version` moved iff one of the four sections differs; and it does what the save action does |
| Services.Database.InsertProject | spur_api/services/projects_service.py:69-78 | in whatever state the tables are by then, the insert fails exactly when the base has been deleted since its lookup, and does what the action of the commit does |
| Services.Database.CreateProject | spur_api/services/projects_service.py:54-80 | a missing base is refused; otherwise the project is stored at version 1 in its base's family, which stays flat; what is left behind is what the lookup and the commit leave behind as actions |
| Services.Database.DeleteProject | spur_api/services/projects_service.py:177-182 | the project and its runs go, its scenarios are detached, all else stays, as the action does it |
| Services.Database.RequestCancel | spur_api/services/runs_service.py:149-163 | the flag of a run that is there is set, whatever its status, and nothing else changes, as the action does it |
| Services.Database.RemoveRun | spur_api/services/runs_service.py:141-146 | the run and its log go, and nothing else, as the action does it |
| Services.Database.InsertRunRows | spur_api/services/runs_service.py:79-96 | in whatever state the tables are by then, the insert fails exactly when the project has been deleted since it was read; otherwise exactly the batch is added |
| Services.Database.SubmitRun | spur_api/services/runs_service.py:46-104 | missing, invalid and targetless projects are refused without a change; otherwise every run asked for is queued with its job, its seed counted up from the one asked for, and the spec, version, target and sizes in its row; what is left behind is what the actions of a submission leave behind |
| World.ApplyKeepsInv | spur_api/services/projects_service.py:63-78 | every action keeps counters, links, pending calls, snapshots and logs consistent |
| World.EveryStateIsGood | spur_api/services/runs_service.py:60-104 | so does every interleaving of any length |
| Executions.ExecutionsOnlyMoveForward | spur_api/db/models.py:44-51 | histories grow, links only go from set to null when the base is deleted, deleted ids never come back, runs only move forward |
| Executions.NoTwoSavesMakeOneVersion | spur_api/services/projects_service.py:155-174 | each version is made by at most one save, and of the saves carrying one version at most one succeeds |
| Executions.EveryVersionWasSaved | spur_api/services/projects_service.py:164-172 | there are no gaps: each version was made by a save of that spec in place of the version before, which a conditional save named |
| Executions.SavesAreRefusedExactly | spur_api/services/projects_service.py:157-163 | a save goes through exactly when the project exists at the expected version; a refused one changes nothing |
| Executions.CountersAreExact | spur_api/db/models.py:35-43 | in every reachable state `version` counts the saves and `inputs_version` is the last that changed the inputs |
| Executions.StalenessIsExact | spur_api/services/runs_service.py:81-94 | in every reachable state a run is out of date exactly when some later save changed the inputs; otherwise it ran the current ones |
| Executions.StaleWithCurrentInputsExactly | spur_api/schemas/run.py:85-89 | in every reachable state a run whose inputs are the project's current ones is out of date exactly if some later version had other inputs |
| Instances.RunsCanBeStaleWithCurrentInputs | spur_api/services/projects_service.py:165-171 | an execution, of three saves the last of which restores the first, in which that happens |
| Executions.FamiliesStayFlat | spur_api/services/projects_service.py:63-78 | with lookups, inserts and deletes racing, every link names an existing project that is no scenario; a delete detaches exactly its own |
| Executions.CommittedLogsAreCuts | spur_api/worker/tasks.py:31-52 | in every reachable state a submitted run's log is what the model built from its recorded spec and seed reports in one uninterrupted run up to its clock, with the locations behind it at its target only |
| Executions.EarlierRowsRunWhatIsFetched | spur_api/worker/tasks.py:20-25 | the log of a row without a recorded spec is that of the spec its project had when the worker fetched it, whatever is saved later |
| Executions.LocationsByStatus | spur_api/worker/runner.py:107-109 | in every reachable state completed logs end with the final locations, at the target; queued, cancelled and failed ones are the bare stream at the clock; a running one is the one or the other |
| Instances.LocationsCanPrecedeCompletion | spur_api/worker/tasks.py:79-83 | a simulator and a job that is seen with its locations while still running |
| Executions.RowsAgreeWithStatus | spur_api/worker/tasks.py:27-83 | in every reachable state a run has a start time unless queued, an end time once it has ended, and an error exactly if it failed |
| Executions.EndsSayHowFar | spur_api/worker/tasks.py:79-83 | in every reachable state a cancelled run was asked to stop and is short of its recorded target, a completed one is at it, and no clock is past it |
| Executions.CancellationIsBoundedInExecutions | spur_api/services/runs_service.py:149-163 | from its cancellation on at most one more `model.run` call of a run ends, whatever else happens |
| Executions.CancelledEarlyNeverCompletes | spur_api/services/runs_service.py:149-163 | if a run with a positive target and chunk size is queued, or running with its clock more than a chunk short of its target, when it is cancelled, no later state has it completed |
| Reachability.WaitingRunsCanBeExecuted | spur_api/worker/tasks.py:19-83 | from any reachable state on, a run that waits for its worker can be executed just as its job would, for every course that does not hang: it ends with that course's status, log and clock |
| Executions.ReplaysAgree | spur_api/services/runs_service.py:74-94 | completed runs with equal snapshot, target and seed have equal logs, within or across executions |
| Executions.SubmissionsAreExact | spur_api/services/runs_service.py:79-96 | a committed submission adds exactly the runs asked for, with the seed asked for if one was, for a spec and version the project held together and the target they give, and nothing else |
| Executions.RunsOfABatchDifferInSeed | spur_api/services/runs_service.py:78-94 | in every reachable state runs that share a batch id have one row as submitted but for their seeds, which differ by as much as their places in the batch |
| Executions.ReadersOfAGrowingLog | spur_api/services/runs_service.py:180-194 | going on from what was received yields a prefix of the final selection; striding does exactly when no read found rows past its offset after one that found too few for a full page |
| Executions.ReadersOfAFinishedLogAreDone | spur_api/services/runs_service.py:180-194 | a client going on from what it received, whose last page was short and read when the run had ended, holds all that is ever selected |
| Executions.StridersWhoWaitSkipNothing | spur_api/services/runs_service.py:191-194 | a client that strides on skips nothing if its short pages were all read when the run had ended |
| Instances.StridingCanSkip | spur_api/services/runs_service.py:191-194 | an execution, with its simulator and the moments of two reads, in which a striding client misses a row |
| Paging.PagesAreWindows | spur_api/services/runs_service.py:180-194 | selected are exactly the rows not before the time and of the train, component and kind asked for, in seq order; a page is its window of them, so filtering then paging is paging the filtered log |
| Paging.SelectionGrows | spur_api/services/runs_service.py:180-190 | a grown log selects what it selected before, and then more |
| Paging.ReadingOnSkipsNothing | spur_api/services/runs_service.py:191-194 | from any read on, such a reader gets the next rows, none skipped or repeated |
| Paging.StridingSkipsNothingExactlyWhen | spur_api/services/runs_service.py:191-194 | a fixed stride skips nothing exactly when, by the sizes at each read, no rows lay past the offset of any read after a short page |

## Left out

- Model.Run: stated for calls that return or raise, since a Dafny method returns; `Composition` and the step machine cover calls that never return.
- SpurRunner.Run: stated for runs that come to an end; `ChunkedRefinesSingleShot` covers the others. An exception is the outcome `Failed`, without its message.
- SpurRunner.RunChunks: as `SpurRunner.Run`; one turn of the loop and the run of one chunk are methods of their own.
- RunSimulation: stated for jobs that come to an end, with nothing but the cancel flag written by others meanwhile; `TheMachineTakesThisCourse` and `StepKeepsCellInv` cover every other order of commits, in which a call that never returns commits nothing.
- HorizonsAgree: where no deletion time can be computed as a whole number the model has none, and refuses the submission; the code can hand back a lone value that is not a number, such as null, and the run then fails in the worker instead, at the first arithmetic on it.
- CreateProject: stated for the case that nothing is committed between its lookup and its insert; `LookUpBase` and `InsertProject`, each in any state of the tables, cover an insert that fails because the base was deleted, as does `World`.
- SubmitRun: stated for the case that nothing else is committed between its commits; `ReadProject`, `InsertRunRows`, `EnqueueJob` and `RecordJobIds`, each in any state of the tables, cover the failures in between, as does `World`.
- World: its actions are on values rather than on objects.
- Json: numbers are whole numbers, and Python's `1 == True == 1.0` is not modelled.
- Runs: events of a run whose row is deleted while its worker is running are not modelled beyond the fact that nothing of it is committed any more.
- Projects: owner, name, spur version and timestamps of a project row; listing and its counts.
- Run names and renaming; listing and fetching runs.
- Run metrics, summaries and visits: they are spur's `analyze`, which is not part of this model, and its results do not grow with the log in any way the code relies on.
- spur itself: `Model`, `validate`, `ProjectSpec` and its random numbers.
- Job delivery, retries and worker crashes; rollback after a failed commit; database isolation beyond the row lock, the foreign keys and the unique (run, seq) index.
- HTTP routing, authentication, CORS, health and catalog endpoints, error status codes, migrations and configuration.
