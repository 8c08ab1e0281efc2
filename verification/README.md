# Potluck: models and proofs

Potluck pools the Ollama installations of a local network: each node keeps a registry of its peers, a
scheduler routes every request, and a model that fits no single node is split over a driver's
llama-server and the rpc-servers of its workers. This project models the four cores that decide what
happens and proves what they promise. Main results are statements over all inputs, or over every state
of every run.

**The pipeline manager** (`PipelineTable`, `PipelineSteps`, `PipelineInvariant`, `PipelineProof`,
`PipelineTheorems`, `PipelineProgress`, `PipelineSweeps`, `PipelineCollector`, `PipelineReadiness`,
`PipelineHealth`, `PipelineReaping`, `PipelineReturns`, `PipelineWitnesses`). `PipelineTable.Manager` is
the mutex-guarded map as a class, one method per critical section, each specified by a function on
the table. `PipelineSteps` interleaves those same functions: any number of `Ensure` calls, collector
sweeps and `StopAll` calls, one reaper per process, and processes that may exit at any time. A call's
place in the code is its `Pc`; kills and probes, which happen outside the lock, are steps of their own;
an action that is impossible changes nothing, so every sequence of actions is a run. A record
per process (`Proc`) says who launched it, how it left the table (`fate`), how many kills `stop` sent it
and whether its launching call saw it answer. The invariant of `PipelineInvariant` holds in every state
of every run and carries the theorems on zombies, conservation, kills, ports, sweeps, readiness and what
`Ensure` returns.

**The split planner** (`Float64`, `Sizing`, `Sorting`, `Selection`, `SplitPlan`, `PlanTheorems`,
`PlanWitnesses`). float64 arithmetic is rounding on naturals (round to nearest, ties to even, section
4.3.1 of IEEE 754-2019); the constant 0.80 is the double 3602879701896397 / 2^52. `PlanSplit` is proved
against the relation `Decides`, which leaves open only what `sort.Slice` leaves open, and the theorems
hold for every outcome the relation allows: optimality, soundness, when the uint64 total wraps, when the
"cannot fit" error is complete. A need of at most `MAX_NEED`, about 2^64 / 5, which models of up to 2^61
bytes meet, rules wrapping out; where a theorem needs no such bound it has none.

**Scheduling over an ageing registry** (`Nodes`, `Text`, `Scheduler`, `Registries`, `Pruning`,
`Gateway`, `RoutingTheorems`, `Freshness`). `Pick` and the two listings are proved against declarative
specifications, pruning is proved invisible to all of them, and the agent's loops are runs of timed events.
`RoutingTheorems` tells every answer by the fields of the nodes alone.

**Model names** (`ModelNames`): where `splitName` stores a model against which names `HasModel` takes
for the same model.

**The worker's rpc-server** (`WorkerProcess`): a smaller step system of the same kind.

## What does not hold

Some things one might expect are false of the code. Each has a run or a pool that shows it, and a theorem
that says exactly when it happens.

- A live llama-server can drop out of the table unkilled (`PipelineWitnesses.LiveServerLeaks`) and is
  then never killed (`LeakedForever`): relaunching after an error locks again without looking again. A
  live process leaks exactly if it has been overwritten (`OnlyOverwritingLeaks`), and a step overwrites a
  process exactly if it is a relaunch's insertion that finds that process under its model's name and
  succeeds in starting its own (`OverwritingExactly`); the process found has then been started by
  another call since the relaunch's stop. docs/ARCHITECTURE.md:82 says that shutdown kills all child
  processes; it kills those in the table.
- A pipeline can be marked ready that never answered a probe (`ReadyWithoutProbe`), because `setState`
  goes by name. This happens exactly if the call that launched the entry's process is still waiting for
  its answer, or has failed and not yet stopped the model (`UnprobedExactly`). As long as no loading
  entry is removed by another, ready means probed (`ReadyMeansProbed`).
- A dead pipeline can be offered (`DeadPipelineOffered`): a reaper leaves the entry of its process alone
  if it is in state error, and a later `setState`, by name, can make it ready. A dead entry is in the
  table exactly if its reaper has found it in state error (`DeadExactly`); then some call is always
  between its setError and its stop (`DeadAreAttended`), so whenever no `Ensure` is in flight every
  pipeline is ready, probed and not reaped, whatever has crashed before (`QuietMeansServing`).
- `Ensure` can return the port of a pipeline that has been stopped (`ReadyWithoutProbe`) or leaked
  (`LeakedPortIsReturned`), and a call that joins another's launch can even where no loading entry is
  removed by another (`JoinerReturnsStopped`). What a launching call returns is a ready pipeline at that
  moment exactly if its process is still in the table (`LauncherReturnsExactly`); what a joining call
  returns, exactly if the process it joined is still in the table and set ready (`JoinerReturnsExactly`).
- The collector can stop a pipeline that was just used (`TouchedIsCollected`). What it lists under its
  lock has been unused for longer than IdleTimeout (`CollectedWasUnused`); what it stops has been so
  exactly if no use and no relaunch has come within that time since it took the list
  (`CollectorStopsExactly`).
- The planner's "cannot fit" error can be wrong about other drivers (`MixedDriversDefeatTheError`);
  `ErrorIsCompleteExceptMixed` says exactly when.
- Beyond `MAX_NEED` the uint64 total can wrap, and a pool with enough memory be refused
  (`HugeModelsWrap`) or given more workers than it takes (`WrappedPlanHasTooManyWorkers`). A pool is
  refused exactly if the total of no number of lenders, most memory first, reaches the need modulo 2^64
  (`RefusedExactly`, `Trichotomy`); the first number that does is planned. The true fewest are planned
  exactly if their total is below 2^64 (`RecruitsExactly`, `FewestWorkersExactly`). No wrap ever yields an
  unsound plan (`PlanIsSound`).

README.md:69 says that a silent device ages out of the registry within about 20 s. The scheduler stops
using it then; the entry itself stays for 40 s and until the next prune tick, that is, for up to 45 s.

## Model

| member | source | states |
|---|---|---|
| PipelineTable.FreePortIsLeast | internal/split/pipeline.go:262-271 | freePort returns the least port of [base, base+100) that nobody holds, and fails exactly if all 100 are held |
| PipelineTable.Manager.constructor | internal/split/pipeline.go:36-40 | a new manager has an empty table |
| PipelineTable.Manager.Lookup | internal/split/pipeline.go:66-71 | the first section of Ensure returns the entry's state and port and marks it used now, and changes nothing else |
| PipelineTable.Manager.ScanPorts | internal/split/pipeline.go:262-271 | the port loop finds the port that the least-free-port function names |
| PipelineTable.Manager.Launch | internal/split/pipeline.go:84-117 | if a port is free and the process starts, the table holds a loading entry for it under the name, whatever was there before; otherwise the table is untouched |
| PipelineTable.Manager.ReapSection | internal/split/pipeline.go:122-127 | the reaper removes the entry if it is still its own object and not in state error, and nothing else |
| PipelineTable.Manager.Touch | internal/split/pipeline.go:174-180 | only the named entry's time of use changes |
| PipelineTable.Manager.Port | internal/split/pipeline.go:183-191 | a port exactly if the entry exists and is ready |
| PipelineTable.Manager.Alive | internal/split/pipeline.go:193-198 | whether the table has an entry under the name |
| PipelineTable.Manager.SetState | internal/split/pipeline.go:200-215 | only the state of the entry under the name changes, whoever put it there (setState and setError) |
| PipelineTable.Manager.Stop | internal/split/pipeline.go:218-228 | exactly the named entry leaves the table, and its process is the one to kill |
| PipelineTable.Manager.CollectIdle | internal/split/pipeline.go:245-251 | the list holds, once each, exactly the ready entries unused for longer than IdleTimeout |
| PipelineTable.Manager.StopAll | internal/split/pipeline.go:231-241 | with nothing else running, the table ends up empty and every process in it is killed once |
| PipelineProof.EveryRunKeepsInv | internal/split/pipeline.go:61-258 | the whole invariant (table, launches, relaunch gaps, kills, sweeps, ports) holds in every state of every interleaving |
| PipelineTheorems.EntriesAreAttended | internal/split/pipeline.go:116-139 | a loading entry has its own launching call in flight; an error entry has a call between its setError and its stop |
| PipelineTheorems.QuietMeansReady | internal/split/pipeline.go:116-139 | whenever no Ensure is in flight every entry is ready |
| PipelineTheorems.ProcessesAreConserved | internal/split/pipeline.go:108-130 | every started process is in exactly one class: mapped (iff the table has it), stopped (iff one kill is pending in one call or one was sent), reaped out after exit, or overwritten; never more than one kill |
| PipelineTheorems.OnlyOverwritingLeaks | internal/split/pipeline.go:108-130 | a live process is neither in the table nor killed nor about to be if and only if it was overwritten |
| PipelineTheorems.OverwritingExactly | internal/split/pipeline.go:66-116 | a step overwrites a process if and only if it is the insertion of a relaunch that finds the process under its model's name, finds a free port and starts its own; another call has then started that process since the relaunch's stop; the absent-key path never overwrites |
| PipelineTheorems.LaunchersDoNotRelaunch | internal/split/pipeline.go:84-140 | a call that has launched a process is at or past its only launch |
| PipelineTheorems.ProcessesAreNeverForgotten | internal/split/pipeline.go:100-117 | no step loses a process |
| PipelineTheorems.PortsAreSeparate | internal/split/pipeline.go:84-116 | processes that have not exited have distinct ports, all in [basePort, basePort+100) |
| PipelineProgress.WaitersNoticeLoss | internal/split/pipeline.go:145-171 | a waiting call goes on to probe if and only if its own model is still in the table and its caller has not given up; otherwise a launching call fails its launch and a joining one returns the failure |
| PipelineProgress.ProbeDecides | internal/split/pipeline.go:156-169 | a probe answered 200 ends the wait, of a launching call with its process recorded healthy, of a joining one with the joined process's port; any other sends the call back to waiting |
| PipelineProgress.LookUpExactly | internal/split/pipeline.go:66-81 | a lookup that finds an entry marks it used; a ready one is returned at once, a loading one waited for, a failed one stopped; nothing else changes |
| PipelineProgress.LaunchExactly | internal/split/pipeline.go:84-117 | a launch succeeds if and only if the process starts and a port of the hundred is free of strangers and of our own live processes; it takes the least such port and makes one loading entry dated now; failing, it changes nothing and returns the failure |
| PipelineProgress.LoneEnsureSucceeds | internal/split/pipeline.go:61-140 | an Ensure that can launch and whose probe is answered returns the port of a ready, probed, live pipeline |
| PipelineProgress.FailedLaunchCleansUp | internal/split/pipeline.go:132-136 | a failed launch marks the entry failed, takes exactly it out, kills its process once more and returns the failure |
| PipelineProgress.RelaunchReplaces | internal/split/pipeline.go:76-117 | Ensure on a failed model kills the failed process and puts a new loading one in its place |
| PipelineProgress.CrashIsReaped | internal/split/pipeline.go:120-130 | a process that exits is reaped: exactly its own entry goes, unless it is in state error |
| PipelineSweeps.FatesAreFinalInRuns | internal/split/pipeline.go:108-130 | a process that has left the table never returns |
| PipelineSweeps.SweepRemovesWhatItFound | internal/split/pipeline.go:231-258 | every pipeline a sweep found (collector: ready and idle over IdleTimeout; StopAll: any) is out of the table when the sweep ends and from then on |
| PipelineSweeps.StopAllLeavesOnlyNewer | internal/split/pipeline.go:231-241 | once StopAll has returned, every process in the table was started after it took its list |
| PipelineSweeps.StopAllEmptiesTheTable | internal/split/pipeline.go:231-241 | if no process starts after StopAll has taken its list, the table is empty when it returns |
| PipelineCollector.MarksAreRemembered | internal/split/pipeline.go:67-70 | no entry is ever dated before the last Touch, Ensure or relaunch of its model |
| PipelineCollector.CollectedWasUnused | internal/split/pipeline.go:245-251 | what the collector lists was neither touched nor asked for during the last IdleTimeout |
| PipelineCollector.ListedExactly | internal/split/pipeline.go:245-251 | the collector's list is exactly what is in the table, ready, and unused for longer than ten minutes; StopAll's is everything |
| PipelineCollector.SweepsAsAsked | internal/split/pipeline.go:231-258 | StopAll takes the list of everything, the collector that of what is idle |
| PipelineCollector.CollectorTakesOnlyIdle | internal/split/pipeline.go:243-258 | whatever a collector takes out of the table was ready and unused for longer than ten minutes when its list was taken |
| PipelineCollector.StillOverdueExactly | internal/split/pipeline.go:245-256 | a listed entry is still overdue at any later point if and only if nothing has marked it within IdleTimeout since |
| PipelineCollector.CollectorStopsExactly | internal/split/pipeline.go:245-256 | at the step at which the collector stops a listed model: exactly that entry goes, its kill is pending, and it was unused for longer than IdleTimeout if and only if nothing has marked it within that time since the list was taken |
| PipelineReadiness.HealthyMeansProbed | internal/split/pipeline.go:132-137 | a process counts as probed only after its own launching call saw its port answer 200 |
| PipelineReadiness.StepKeepsCalm | internal/split/pipeline.go:132-206 | a step that takes no loading entry from another call keeps: launching calls hold their loading entries, and ready entries are probed |
| PipelineReadiness.ReadyMeansProbed | internal/split/pipeline.go:132-206 | in runs where no loading entry is removed by anyone but its launcher, an entry is ready only after that launcher's probe of its own port answered |
| PipelineReadiness.PortIsProbed | internal/split/pipeline.go:183-191 | in such runs Port returns only the port of a mapped process for that model that has been probed |
| PipelineHealth.HealthyExactly | internal/split/pipeline.go:132-137 | the record that a process is healthy means exactly that its own launching call has seen its port answer |
| PipelineHealth.EveryRunKeepsAllFit | internal/split/pipeline.go:108-139 | in every run the fate and health of every process fit the place of its launching call |
| PipelineHealth.EntryProbedExactly | internal/split/pipeline.go:132-137 | in every run, an entry's process has been probed if and only if its launching call is about to set Ready or has returned its port |
| PipelineHealth.UnprobedExactly | internal/split/pipeline.go:200-206 | setState(Ready) leaves an unprobed entry if and only if the call that launched the entry's process is still waiting, about to set Error, or about to stop the model |
| PipelineHealth.TurnsUnprobedExactly | internal/split/pipeline.go:200-206 | over all steps: an entry turns ready unprobed if and only if the step is such a setState; the call that makes it has then lost its own process from the table |
| PipelineReaping.DeadAreAttended | internal/split/pipeline.go:120-139 | in every run, an entry whose process has been reaped, whatever its state, has some call between its setError and its stop |
| PipelineReaping.DeadExactly | internal/split/pipeline.go:120-130 | in every run, an entry's process has been reaped if and only if its reaper ran and found this entry in state error |
| PipelineReaping.ReadyIsNotReaped | internal/split/pipeline.go:120-139 | a ready entry's process has been reaped only while some call is between its setError and its stop, and only if some loading entry was removed by another than its launcher |
| PipelineReaping.QuietMeansServing | internal/split/pipeline.go:61-140 | in every run, whenever no Ensure is in flight every entry is ready, was seen answering by its own launching call, and its process has not been reaped |
| PipelineReturns.ReturnedWasSeen | internal/split/pipeline.go:61-140 | Ensure returns a port only if that call itself, launching or joining, saw it answer 200, or found its model ready on it |
| PipelineReturns.ReturnedHasAnswered | internal/split/pipeline.go:61-140 | in runs where no launching call loses its loading entry, every port Ensure returns has answered a probe before |
| PipelineReturns.LauncherReturnsExactly | internal/split/pipeline.go:132-139 | a launching call returns its own port, and that is the port of the ready entry at that moment if and only if its process is still in the table |
| PipelineReturns.LauncherReturnsReady | internal/split/pipeline.go:132-139 | in such runs it always is |
| PipelineReturns.JoinerReturnsExactly | internal/split/pipeline.go:67-75 | a joining call returns the port of the process it found loading, and that is the port of the ready entry at that moment if and only if the process is still in the table and has been set ready |
| PipelineReturns.ReadyExactly | internal/split/pipeline.go:132-137 | in runs where no launching call loses its loading entry, an entry is ready if and only if the call that launched it has returned |
| PipelineReturns.JoinerReturnsReadyExactly | internal/split/pipeline.go:67-75 | in such runs a joining call returns the ready entry's port if and only if its process is still in the table and the call that launched it has returned |
| PipelineWitnesses.LiveServerLeaks | internal/split/pipeline.go:76-116 | a run of three Ensure calls after which a live process is unmapped and no kill is sent or pending |
| PipelineWitnesses.LeakedForever | internal/split/pipeline.go:76-116 | in every run an overwritten process stays out of the table and is never killed |
| PipelineWitnesses.LeakedPortIsReturned | internal/split/pipeline.go:132-139 | the same run goes on to return the leaked process's port and to mark the other entry, unprobed, ready |
| PipelineWitnesses.ReadyWithoutProbe | internal/split/pipeline.go:200-206 | a run with StopAll after which Port hands out the port of a process that has never answered, and Ensure has returned the port of a stopped one |
| PipelineWitnesses.DeadPipelineOffered | internal/split/pipeline.go:120-139 | a run after which Port hands out, and Ensure has returned, the port of a process that has been reaped |
| PipelineWitnesses.JoinerReturnsStopped | internal/split/pipeline.go:67-75 | a run, without any loading entry removed by another, in which a joining call returns the port of a stopped process and the table is empty |
| PipelineWitnesses.TouchedIsCollected | internal/split/pipeline.go:245-256 | a run in which the collector stops an entry used at that very instant |
| WorkerProcess.Worker.EnsureSection | internal/split/worker.go:47-66 | a process is started exactly if the binary is installed, none is set and the start succeeds |
| WorkerProcess.EveryRunKeepsInv | internal/split/worker.go:47-91 | in every interleaving the command is exactly the one started and not yet reaped process |
| WorkerProcess.AtMostOneAlive | internal/split/worker.go:47-81 | at most one rpc-server is alive, and it is the one in w.cmd |
| WorkerProcess.StartsAfterReap | internal/split/worker.go:51-66 | a new process starts only after all earlier ones have exited and been reaped |
| WorkerProcess.SupersededIsReaped | internal/split/worker.go:51-78 | a process with a successor has exited and been reaped |
| WorkerProcess.DelayedStopIsHarmless | internal/split/worker.go:84-91 | a Stop that kills late changes no other process, and nothing at all once a newer one has started |
| WorkerProcess.StopKills | internal/split/worker.go:84-91 | a Stop that gets to its kill while the process it read is alive kills it |
| WorkerProcess.StopReadsTheLiveOne | internal/split/worker.go:84-88 | a Stop that reads while a process is alive reads exactly that one, and nothing if and only if all have exited and been reaped |
| WorkerProcess.KilledExactly | internal/split/worker.go:84-91 | a process is killed if and only if some Stop read it while it was w.cmd and got to its kill while it was alive |
| WorkerProcess.EnsureStartsExactly | internal/split/worker.go:47-66 | an Ensure starts a process if and only if its start succeeds and every earlier one has exited and been reaped; otherwise it changes nothing |
| WorkerProcess.RestartAfterCrash | internal/split/worker.go:47-81 | after a process has exited and been reaped, the next Ensure runs a new one |
| WorkerProcess.RunningMeansUnreaped | internal/split/worker.go:36-40 | Running is false exactly when every started process has exited and been reaped |
| Float64.RoundsToNearestEven | internal/split/split.go:83-90 | the rounding in both factors is to nearest, and a tie goes to the even significand |
| Float64.RoundIsRepresentable | internal/split/split.go:83-90 | the result of rounding has at most 53 significant bits |
| Float64.RoundExact | internal/split/split.go:83-90 | numbers with at most 53 significant bits are not changed |
| Float64.RoundMonotone | internal/split/split.go:83-90 | rounding preserves order |
| Sizing.UsableNumeratorIsNearest | internal/split/split.go:76-79 | the double taken for WorkerUsableFrac is nearest to 4/5 |
| Sizing.UsableInRange | internal/split/split.go:88-90 | the conversion in Usable stays in uint64 for all memory sizes |
| Sizing.UsableMonotone | internal/split/split.go:88-90 | Usable is monotone on all of uint64 |
| Sizing.UsableExact | internal/split/split.go:88-90 | below 3 * 2^49 bytes Usable is four fifths rounded down, in spite of two roundings |
| Sizing.UsableExactBoundIsTight | internal/split/split.go:88-90 | at 3 * 2^49 bytes it is one more |
| Sizing.NeedMonotone | internal/split/split.go:83-85 | Need is monotone wherever its rounded product stays below 2^64 |
| Sizing.NeedExact | internal/split/split.go:83-85 | below 1801439850948199 bytes Need is five quarters rounded down |
| Sizing.NeedExactBoundIsTight | internal/split/split.go:83-85 | at that size it is one more |
| Sizing.RoomForOneMore | internal/split/split.go:88-90 | up to MAX_NEED (about 2^64 / 5) the need and any one node's share stay below 2^64 together |
| Sizing.NeedLeavesRoom | internal/split/split.go:83-85 | models of at most 2^61 bytes need no more than MAX_NEED |
| Sizing.NeedOverflowsExactly | internal/split/split.go:83-85 | exactly from 14757395258967641088 bytes on, the need is what the platform makes of a float64 out of range; below, it does not depend on the platform |
| Sorting.SortSlice | internal/scheduler/splitplan.go:78-80 | sort.Slice yields a sorted permutation; ties in any order |
| Sorting.SortSliceStable | internal/scheduler/scheduler.go:54-64 | sort.SliceStable yields a sorted permutation in which tied elements keep their order |
| Text.LessIsOrder | internal/registry/registry.go:155 | Go's string order is a strict total order |
| Text.LessExactly | internal/registry/registry.go:155 | Go's string order is the lexicographic one |
| Selection.TopPrefixDominates | internal/scheduler/splitplan.go:78-88 | the k first candidates by memory weigh at least as much as any k candidates |
| SplitPlan.LargestSizeIsMaximum | internal/scheduler/splitplan.go:30-41 | the size is the largest any eligible holder reports under a matching name, 0 if there is none |
| SplitPlan.CollectHolders | internal/scheduler/splitplan.go:29-41 | the loop yields the eligible holders in order and the largest matching size |
| SplitPlan.AnyFits | internal/scheduler/splitplan.go:46-51 | true exactly if some holder's usable memory covers the need |
| SplitPlan.Recruit | internal/scheduler/splitplan.go:81-88 | recruits a prefix of the candidates, each while the capacity was short, and all of them if it stays short |
| SplitPlan.PlanWith | internal/scheduler/splitplan.go:68-94 | given the chosen driver, the plan or the "cannot fit" error is one the specification allows |
| SplitPlan.PlanSplit | internal/scheduler/splitplan.go:28-95 | every result is one the specification allows: not needed, no driver, a plan of top lenders each recruited while short, or an error with all lenders recruited |
| PlanTheorems.RecruitmentNeverWraps | internal/scheduler/splitplan.go:69-88 | for needs up to MAX_NEED, so for models up to 2^61 bytes, the running capacity equals the unbounded sum and stays below 2^64, for any number of nodes and any memory they report |
| PlanTheorems.FewestWorkers | internal/scheduler/splitplan.go:71-88 | with the plan's driver, no smaller selection of lenders reaches the need |
| PlanTheorems.FewestWorkersExactly | internal/scheduler/splitplan.go:71-88 | for every need: no smaller selection reaches it if and only if the plan's own true total fits into uint64 |
| PlanTheorems.NoWorkerIsSpare | internal/scheduler/splitplan.go:81-88 | dropping any one recruited worker falls short |
| PlanTheorems.PlanIsSound | internal/scheduler/splitplan.go:53-94 | every plan, even after a wrap, has an eligible driver that holds the model, at least one worker, distinct eligible workers other than the driver, and enough usable memory in all |
| PlanTheorems.PlanMemory | internal/scheduler/splitplan.go:68-94 | 16 times the plan's free memory is at least 25 times the model size minus 15 |
| PlanTheorems.Trichotomy | internal/scheduler/splitplan.go:29-94 | for every need, exactly when each answer is given: not needed, no driver, and, with the driver chosen, "cannot fit" if and only if no number of lenders reaches the need modulo 2^64 (up to MAX_NEED: if and only if all of them together fall short), with the true capacity and worker count when all fall short |
| RoutingTheorems.NotNeededExactly | internal/scheduler/splitplan.go:42-51 | no split is called for if and only if no size is known or a node that shares, has Ollama up, is less than 20 s old and has the model takes the size whole |
| RoutingTheorems.LargestSizeExactly | internal/scheduler/splitplan.go:29-41 | the size planned for is the largest that such a node reports under a matching name |
| RoutingTheorems.NoDriverExactly | internal/scheduler/splitplan.go:53-64 | the no-driver error comes if and only if a split is called for and no such node has llama-server installed |
| RoutingTheorems.DriverHasTheMost | internal/scheduler/splitplan.go:53-68 | the driver of a plan or refusal is such a node, and has at least the memory of every other |
| RoutingTheorems.LendersExactly | internal/scheduler/splitplan.go:71-77 | the candidates are exactly the nodes that share, have Ollama up, are less than 20 s old, run as workers and are not the driver |
| RoutingTheorems.WorkersHaveTheMost | internal/scheduler/splitplan.go:71-88 | a plan's workers are such nodes, and none passed over has more memory than one recruited |
| PlanTheorems.RefusedExactly | internal/scheduler/splitplan.go:81-94 | for every need, the pool is refused if and only if the total of no number of lenders, most memory first, reaches the need modulo 2^64; otherwise the plan has the first number that does |
| PlanTheorems.RecruitsExactly | internal/scheduler/splitplan.go:81-93 | with n the fewest lenders, most memory first, whose true total reaches the need: the result is a plan with exactly n workers if and only if that total is below 2^64 |
| PlanTheorems.ErrorIsCompleteExactly | internal/scheduler/splitplan.go:53-93 | for every need: after "cannot fit" some plan would fit if and only if the chosen driver's own lenders reach the need (the total wrapped) or the mixed case holds |
| PlanTheorems.ErrorIsCompleteExceptMixed | internal/scheduler/splitplan.go:53-93 | after "cannot fit" some other plan would fit if and only if the chosen driver is a lender and a driver that is not, together with all lenders, reaches the need |
| PlanTheorems.ErrorIsComplete | internal/scheduler/splitplan.go:53-93 | if the chosen driver is no lender, or all possible drivers are, no driver and workers fit |
| PlanWitnesses.MixedDriversDefeatTheError | internal/scheduler/splitplan.go:65-93 | a pool of two where the planner reports "cannot fit" and another driver would fit |
| PlanWitnesses.HugeModelsWrap | internal/scheduler/splitplan.go:81-93 | a pool with a model of 2^63 bytes where the uint64 total wraps and a feasible split is refused |
| PlanWitnesses.WrappedPlanHasTooManyWorkers | internal/scheduler/splitplan.go:81-94 | the same pool with two more helpers gets a plan with four workers where two would do |
| Scheduler.Pick | internal/scheduler/scheduler.go:40-66 | the earliest least eligible holder in the order loaded, active, memory; if there is none, the error with the pool's models |
| Scheduler.PoolModels | internal/scheduler/scheduler.go:74-90 | exactly the names eligible nodes offer, strictly ascending |
| Scheduler.AddOffer | internal/scheduler/scheduler.go:105-112 | the map keeps, per name, the first details and the servers in order |
| Scheduler.CollectDetails | internal/scheduler/scheduler.go:100-113 | the map after the loops describes exactly the offered names |
| Scheduler.PoolModelDetails | internal/scheduler/scheduler.go:99-121 | one description per offered name in strictly ascending order, with the first offer's details and the sorted list of all its servers |
| RoutingTheorems.PickedNodeIsInService | internal/scheduler/scheduler.go:40-70 | the picked node shares, has Ollama up, was updated less than 20 s ago and has a model of the name, with or without ":latest" |
| RoutingTheorems.NoNodeExactly | internal/scheduler/scheduler.go:40-70 | Pick finds no node if and only if no such node exists |
| RoutingTheorems.PoolModelsExactly | internal/scheduler/scheduler.go:74-90 | the pool's list is exactly the names that nodes in service advertise, strictly ascending |
| RoutingTheorems.DetailsExactly | internal/scheduler/scheduler.go:99-121 | each description has what the first node in service advertises under the name, and lists each node in service by name, in order, once per advertisement |
| Registries.Registry.Upsert | internal/registry/registry.go:104-109 | exactly the node's own entry changes, to the state given, stamped with the local clock |
| Registries.Registry.Prune | internal/registry/registry.go:129-141 | keeps exactly this node's own entry and those not older than ttl, and returns the IDs of the others once each |
| Registries.Registry.Snapshot | internal/registry/registry.go:144-158 | every entry once, self first, then by name |
| RoutingTheorems.SnapshotOrder | internal/registry/registry.go:151-156 | a snapshot lists this node first and goes by name after that |
| Pruning.SnapshotAfterPrune | internal/registry/registry.go:129-158 | with distinct names, the snapshot after pruning is the one before without the pruned nodes, in the same order |
| Pruning.PickUnchanged | internal/scheduler/scheduler.go:40-66 | Pick answers the same without nodes that are not eligible |
| Pruning.PlanUnchanged | internal/scheduler/splitplan.go:28-95 | PlanSplit has the same possible outcomes without them |
| Pruning.OffersUnchanged | internal/scheduler/scheduler.go:74-121 | the pool offers the same without them |
| Pruning.ModelListUnique | internal/scheduler/scheduler.go:84-89 | what is offered determines the list of names |
| Pruning.DetailListUnique | internal/scheduler/scheduler.go:114-120 | what is offered determines the detail list |
| Pruning.PruningIsInvisible | internal/agent/agent.go:155-159 | with distinct names, from the prune on, Pick, PlanSplit, PoolModels and PoolModelDetails answer the same on a snapshot taken before it and one taken after it |
| Pruning.PruningKeepsPossibleAnswers | internal/agent/agent.go:155-159 | with any names, the picks, plan outcomes and offers that some snapshot allows are the same before and after the prune |
| Gateway.HandleInference | internal/gateway/gateway.go:169-199 | bad request without a model; a plan only on /v1/ paths; otherwise what Pick says, also after a planning error |
| RoutingTheorems.RoutesExactly | internal/gateway/gateway.go:169-199 | a bad request if and only if no model is named; a pipeline only for paths that begin with /v1/, and then whenever PlanSplit can only plan; otherwise what Pick says |
| Gateway.RoutedPlanIsSound | internal/gateway/gateway.go:175-190 | a plan made on a snapshot of the registry is sound, its driver and workers being registry entries |
| Gateway.NotFoundMeansNoHolder | internal/gateway/gateway.go:193-197 | the 404 happens exactly when no eligible node holds the model |
| Gateway.SplitVerdictImpliesPick | internal/gateway/gateway.go:179-193 | if PlanSplit returns a plan or an error, Pick finds a node |
| Gateway.PickedNodeFits | internal/scheduler/scheduler.go:54-65 | the picked node fits the model whole if and only if some holder does before which no other ranks on loaded and active |
| Gateway.PickedNodeFitsOnTies | internal/scheduler/splitplan.go:46-51 | so if holders tie on loaded and active, it fits whenever some holder does |
| Gateway.PickIsEarliestBest | internal/scheduler/scheduler.go:54-65 | every other holder is worse in the order loaded, active, memory, or equal and not earlier |
| Gateway.SuggestionsNeverMatch | internal/scheduler/scheduler.go:50-52 | the names a 404 lists are sorted, distinct, offered by an eligible node, and none matches the request |
| Freshness.PollPeers | internal/agent/agent.go:262-283 | entries change only to what a polled peer other than this node answered, marked not self and stamped locally; every answer leads to an entry |
| Freshness.PollChangesExactly | internal/agent/agent.go:262-283 | an entry changes if and only if a polled peer other than this node has reported its ID, to what such a peer answered, marked not self and stamped locally |
| Freshness.EntryIsLastUpsert | internal/registry/registry.go:104-141 | in every run, an entry is what the last upsert of its ID stored, stamped with the clock of then |
| Freshness.UsedNodesAreFresh | internal/scheduler/scheduler.go:68-70 | in every run, whatever is eligible was upserted less than 20 s before |
| Freshness.SilentPeerIsNotUsed | internal/scheduler/scheduler.go:68-70 | a peer last reached at u is not eligible from u + 20 s on |
| Freshness.SilentPeerIsForgotten | internal/agent/agent.go:155-159 | with prune ticks at most 5 s apart, it is gone after u + 45 s |
| Freshness.HeardPeerIsKept | internal/registry/registry.go:129-141 | up to u + 40 s it is there |
| Freshness.SelfIsNeverPruned | internal/registry/registry.go:134-135 | the node's own entry stays from its first refresh on |
| ModelNames.SplitName | internal/ollamafs/ollamafs.go:65-81 | the step-by-step parse computes PathOf, the decomposition at the last colon and at the slashes |
| ModelNames.FullNameRoundTrip | internal/ollamafs/ollamafs.go:65-81 | "host/ns/name:tag" gives back exactly its parts when none contains "/" or ":" |
| ModelNames.ShortNameDefaults | internal/ollamafs/ollamafs.go:65-81 | parts that are left out get the defaults |
| ModelNames.OllamaDefaults | internal/ollamafs/ollamafs.go:63-81 | the defaults are registry.ollama.ai, library and latest |
| ModelNames.LongNameStaysWhole | internal/ollamafs/ollamafs.go:73-80 | a name with more than three parts stays whole under the default host and namespace |
| ModelNames.MatchAgreesExactly | internal/registry/registry.go:74-81 | for names the registry takes for the same model, the store paths are equal if and only if the names are or the shorter one has no colon |
| ModelNames.DriverOpensAdvertisedModel | internal/ollamafs/ollamafs.go:65-81 | with at most one colon in each name, a match means the same manifest |
| ModelNames.SecondColonDisagrees | internal/registry/registry.go:76 | with a colon in the name, adding ":latest" still matches but leads elsewhere |
| ModelNames.SamePathExactly | internal/ollamafs/ollamafs.go:65-81 | equal paths with equally many parts if and only if the names match and are equal or the shorter one has no colon |
| ModelNames.SamePathMatches | internal/ollamafs/ollamafs.go:65-81 | without "/" after a colon, equal paths and equally many path parts imply a match |
| ModelNames.DefaultNamespaceDisagrees | internal/ollamafs/ollamafs.go:66 | "library/name" is stored where "name" is, yet does not match it |

## Left out

- PipelineTable.Manager.StopAll: speaks of a StopAll that nothing interrupts, although the code releases the lock between stops; `PipelineSweeps.SweepRemovesWhatItFound` and `StopAllEmptiesTheTable` speak of the interleaved one.
- Worker's constructor, Running, reaper and Stop, and the registry's constructor, Touch, Remove and Get have one-line bodies and contracts that say as much; what they add up to is stated by the lemmas on runs.
- HTTP handlers, streaming, proxying, headers, JSON and token checks: only the order of decisions in handleInference is modelled; a body that cannot be read is not.
- Starting processes, sockets, log files and /health: each becomes a choice of the environment in a step (the start succeeds, the probe answers, the port is held by a stranger, the process exits).
- The child binds its port some time after freePort has closed its listener: the model lets it hold the port from start to exit, so a stranger taking the port in between is not modelled.
- Ensure with no llama-server installed, and workers, context size and file path of a launch: they do not touch the table.
- The error text setError stores, and the Workers and StartedAt fields of PipelineInfo: nothing modelled reads them.
- The 30-minute deadline, the caller's context and the client's timeout in waitReady: one choice to give up, at any round.
- gcLoop runs its sweeps one after the other; the step system allows any number at once, which only adds runs.
- Worker.pickDevices and waitForPort: parsing of foreign output and a wait that changes no state.
- The signal a process gets from kill is counted or noted; that it then exits is left to the environment.
- time.Since is read several times within one call of the scheduler: the model takes one clock reading per call.
- Converting a float64 beyond 2^64 to uint64 is platform-defined in Go: the result is the parameter `overflow`, and the theorems hold for all its values.
- Node IDs are taken as unique: no peer reports this node's ID (hypothesis `OwnIds` of the freshness theorems that need it).
- collectHints and the addrs map: pollPeers takes the peers it knows as an argument, and each answer with the time at which it is stored.
- Registry fields no decision reads (version, address, GPU list, counters), model details other than name and size, request history.
- The loops of HasModel and HasLoaded are written as existential predicates.
- mDNS discovery, hardware and Ollama probing, manifest and blob reading, the dashboard, the command line.
- The texts of the planner's two errors: the outcome carries their figures, not their text.
