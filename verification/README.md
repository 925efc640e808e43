# microinit, modelled and verified

microinit is a PID 1 init and service supervisor. This project models the parts of it whose
correctness is a matter of logic rather than of system calls, and proves what those parts are for:

- **The supervisor** (`src/supervisor.rs`, `src/reaper.rs`) as a transition system. `SupervisorSpec`
  says what every API call and every step of a monitor loop does to the state, as functions;
  `MonitorThread.ServiceMonitor` and `Supervisor.Supervisor` are the imperative objects, whose methods
  are proved to compute exactly those functions. An iteration of a monitor is cut into two to five
  steps: after a message has been received, wherever the code reads the stop flag and then acts on it, and
  where it sleeps before a restart. Between two steps anything may happen: requests, reloads, other
  monitors, shutdown. Child exits, shell results, spawn failures, probe outcomes, override-file failures
  and the clock are inputs of the steps, so a theorem about every sequence of actions is a theorem about
  every behaviour of the outside world. Each service carries a journal (a ghost history); the theorems read
  the journal and never the fields they are about.
- **Start and shutdown order** (`src/graph.rs`): `TopoSort`, `BootOrder`, over `Paths` and `StartOrder`.
- **Watch fan-out** (`src/watch.rs`): `Watch`.
- **Bounded capture** (`src/early_boot.rs`, `go/supervise/host.go`): `EarlyBoot`, `Utf8`, `RingBuffer`.
- **Configuration assembly and the reload diff** (`src/config.rs`, `src/supervisor.rs`): `ConfigFiles`,
  `ReloadDiff`.
- **Dependency subgraph and tree output** (`src/supervisor.rs`, `src/cli.rs`): `Describe`, `DepTree`,
  `TreeLines`.
- **Printers with inverse readers** (`go/config/shell.go`, `go/client/client.go`): `Shell`, `Frames`.

How the supervisor proofs fit together: `ServiceInvariant` defines the invariant of one service and
shows that each piece of monitor work keeps it, up to one whole step (`TickKeeps`); `MonitorWork` bounds in
the same way what a step can spawn, act on and touch (`TickIsWithin`); `SupervisorRuns` lifts the invariant
to all services, every action and every run (`RunIsSound`) and says what happens to a service outside its
own monitor (`OthersPass`); `Outcomes` and `Requests` say where each request, message, exit and probe leads,
`Histories` which states it reports and which commands it runs, and `SpawnSteps` which steps spawn; `SupervisorTheorems`, `DisabledServices`, `DependencyGating`,
`SelfDependency`, `ReloadDiff`, `ExitAccounting`, `Shutdown` and `LateStarts` state the promises over whole
runs.

## Where the code does not do what one might expect

- *A disabled service is down or about to be stopped* is false in general. `set_enabled` changes the
  in-memory configuration before it writes the override file (`src/supervisor.rs:650-677`). When the
  write fails, configuration and runtime flag disagree, and a later reload with a changed definition
  queues a `Restart` for a service whose runtime flag is off; the restart command then runs it.
  `SupervisorTheorems.FailedWriteCanRunDisabled` is that run. `DisabledServices.DisabledInEveryRunIff` gives
  the exact condition for every run without shutdown: the promise holds all through it if and only if no
  reload restarts a service whose runtime flag is off while the old and the new configuration both call it
  enabled. The two flags agree all through a run if and only if no toggle changes the configured flag and
  then fails to write (`DisabledServices.RunInStepIff`), and then the promise holds
  (`DisabledServices.DisabledInEveryRun`).
- *Every unforced spawn had all dependencies ready* is false for a service that depends on itself, which a
  reload accepts: when such a service runs and is restarted, the check passes, and the spawn happens in the
  state `Starting` (`SelfDependency.SelfDependencySpawnsUnready`). Over every history, the unforced spawns
  with an unready dependency are exactly those of a definition that lists the service itself, and no other
  dependency is ever unready (`SelfDependency.UnreadyExactlyWithSelf`, `SupervisorTheorems.SpawnsAreGated`).
- *Shutdown starts nothing* is false: after the stop flag is up, a monitor can still spawn once, in its next
  step, when it has a start in hand, is backing off before a restart, or has just read the flag as clear for a
  retry or a probe. `LateStarts` has a run from boot for each of the four (`LateStarts.StartInHand`,
  `LateStarts.RestartAfterBackOff`, `LateStarts.StartByRetry`, `LateStarts.RestartByProbe`). Over every run, a
  service is spawned exactly as often as a step of its monitor meets the guards of its place in the loop
  (`SpawnSteps.SpawnsInRunIff`); under the flag only the first step can (`Shutdown.SpawnsAfterShutdownIff`), and
  nothing is spawned unless the monitor was committed to a start (`Shutdown.SpawnsAfterShutdown`).
- The watch generation is a wrapping 64-bit counter: after exactly 2^64 view changes a waiting reader finds
  its own generation again and times out without having seen the latest view (`Watch.WrapMissesView`). A
  wait that times out has missed nothing if and only if there were fewer changes since the reader last
  looked (`Watch.CaughtUpIff`).
- The lookup behind `describe` is documented as following the merge order (`src/supervisor.rs:1379-1385`).
  It always names the right file, but within that file it shows the first entry of a name while the merge
  keeps the last: `ConfigFiles.LookupShowsFirst` is such a file, and `ConfigFiles.LookupNamesOrigin` gives
  the exact condition.
- `topological_sort` reports a cycle named "unknown" for an acyclic configuration that lists a name twice;
  `TopoSort.TopologicalSort` states that, and its success condition includes distinct names.

## Model

| member | source | states |
|---|---|---|
| `SupervisorTheorems.EventRing` | src/supervisor.rs:87-169 | in every reachable state the ring is the last 16 of the full event history, the state changes in that history chain from creation and end at the current state, and the restart counter is the number of restarts up to saturation |
| `SupervisorTheorems.ReportedPid` | src/supervisor.rs:131-169 | in every reachable state uptime runs, exactly while Running, from the time of the event with which Running was entered; the pid shown is that of the child last adopted, unless a state other than Running, Starting, Restarting and WaitingForDependency has been entered since, and equals the tracked pid whenever both exist |
| `SupervisorTheorems.OneChildAtATime` | src/supervisor.rs:948-1015 | in every run a start is entered and a child adopted only without a child, and only the current child is stopped or has its exit taken; the tracked pid is what that history says |
| `SupervisorTheorems.SpawnsAreGated` | src/supervisor.rs:1206-1250 | in every run, at each unforced spawn every dependency was Running or Succeeded, except the service itself if and only if it lists itself |
| `SelfDependency.UnreadyExactlyWithSelf` | src/supervisor.rs:1218-1250 | over every run, the unforced spawns of a service with an unready dependency are exactly those under a definition that lists the service itself |
| `SelfDependency.SelfDependencySpawnsUnready` | src/supervisor.rs:1218-1250 | counterexample run: a reload adds a service that lists itself, a forced start and a restart follow, and one unforced spawn has an unready dependency |
| `DependencyGating.ReadyAtSpawnIff` | src/supervisor.rs:1218-1250 | when the check of a start passes, all dependencies are still ready at the spawn if and only if the service does not list itself |
| `SupervisorTheorems.ProbeStreak` | src/supervisor.rs:1053-1138 | with a fixed threshold, over every run: the streak is the failures in a row and below the threshold between steps, a liveness restart follows the threshold-th failure in a row at once and never happens otherwise, and the failure counter counts all failures up to saturation |
| `SupervisorTheorems.ExitsActedOnOnce` | src/reaper.rs:34-72 | over every run each published exit is taken at most once; what was neither taken nor dropped for space is exactly what the registry holds, within its bound |
| `ExitAccounting.EachExitActedOnOnce` | src/supervisor.rs:1006-1014 | over every run from boot, the exits of a pid that monitors act on, counted over all services ever present, are at most those published and not dropped |
| `ExitAccounting.ActedOnAreTaken` | src/supervisor.rs:1006-1014 | over every run no more exits of a pid are acted on than are taken for it |
| `ExitAccounting.OnlyStepsAct` | src/supervisor.rs:1006-1014 | only a step of its own monitor makes a service act on an exit |
| `ExitAccounting.ShellAccounts` | src/supervisor.rs:1140-1153 | a shell command publishes every exit reaped meanwhile and takes its own, and no other |
| `ExitAccounting.StopAccounts` | src/supervisor.rs:1140-1153 | stopping a child publishes every exit reaped while the stop command runs and the child ends |
| `ExitAccounting.StartAccounts` | src/supervisor.rs:1251-1330 | a spawn publishes every exit reaped while it waits, twice for a job that is late, and takes that of its child |
| `SupervisorTheorems.NamesAgree` | src/supervisor.rs:815-918 | after every run the monitored services are exactly the configured ones, with distinct names |
| `SupervisorTheorems.FailedWriteQueuesRestart` | src/supervisor.rs:650-677 | a failed enable followed by a reload with another definition leaves the runtime flag off with a restart queued |
| `SupervisorTheorems.RestartRunsDisabled` | src/supervisor.rs:969-989 | a queued restart of a disabled daemon ends in Running when its restart command succeeds |
| `SupervisorTheorems.FailedWriteCanRunDisabled` | src/supervisor.rs:650-677 | counterexample run: after two more monitor steps a disabled service is running with nothing queued |
| `SupervisorRuns.NextKeeps` | src/supervisor.rs:598-1043 | every API call, reload, monitor step, reaped exit and shutdown keeps the invariant of all services and of the registry |
| `SupervisorRuns.BootIsSound` | src/supervisor.rs:681-727 | the invariant holds after boot's sends, whatever their order |
| `SupervisorRuns.RunIsSound` | src/supervisor.rs:598-1043 | the invariant holds in every state of every run |
| `SupervisorRuns.ReloadAt` | src/supervisor.rs:815-918 | a reload makes the name sets agree again and determines each service's record alone, whatever the order of services |
| `SupervisorRuns.RequestsOnlySend` | src/supervisor.rs:598-648 | a start, stop or restart request fails without effect or appends exactly one message (`Requests` says when) |
| `SupervisorRuns.OthersPass` | src/supervisor.rs:587-918 | whatever is not a step of its own monitor leaves a service its place in the loop, its child and its history, up to one event |
| `ServiceInvariant.TickKeeps` | src/supervisor.rs:920-1043 | one monitor step, from any place in the loop and with any message, exit and probe outcome, keeps the whole invariant of its service |
| `ServiceInvariant.SetStateKeeps` | src/supervisor.rs:131-169 | a state change keeps ring, chain, pid and uptime in agreement with the history |
| `ServiceInvariant.FailedProbeKeeps` | src/supervisor.rs:1101-1120 | a failed probe moves streak, counter and ring together; at the threshold the streak starts over |
| `ServiceInvariant.StopTrackedKeeps` | src/supervisor.rs:1140-1153 | stopping gives up exactly the tracked child and touches neither runtime record nor queue |
| `ServiceInvariant.OnProcessExitKeeps` | src/supervisor.rs:1155-1204 | reporting an exit, or announcing the restart, keeps the invariant |
| `ServiceInvariant.LivenessRestartKeeps` | src/supervisor.rs:1120-1137 | a liveness restart keeps the invariant, starting from the threshold-th failure |
| `ServiceInvariant.LaunchKeeps` | src/supervisor.rs:1251-1330 | spawning with dependencies ready, and each outcome of the spawn, keeps the invariant |
| `ServiceInvariant.DoStartKeeps` | src/supervisor.rs:1206-1330 | a start entered without a child keeps the invariant on every path |
| `MonitorWork.TickIsWithin` | src/supervisor.rs:920-1043 | a monitor step, from any place in the loop, spawns at most what the monitor is committed to, acts on no exit it has not taken in that step, and leaves the flag alone |
| `MonitorWork.TickWorks` | src/supervisor.rs:940-1041 | past the head of the loop and but for a quit, a step also leaves the queue and the loop alone |
| `MonitorWork.LookWorks` | src/supervisor.rs:1006-1014 | the one place that acts on an exit has just taken it |
| `MonitorWork.TickMovesOn` | src/supervisor.rs:925-1042 | where a monitor stands after each step, and that it leaves exactly at the head of the loop under the flag or on a quit |
| `ServiceInvariant.UnmetDepsMeaning` | src/supervisor.rs:221-239 | the check fails exactly when some dependency is unknown, naming one; otherwise it lists exactly the dependencies whose state is neither Running nor Succeeded |
| `ServiceInvariant.CheckPassesIff` | src/supervisor.rs:241-244 | the check passes if and only if every dependency is known and in state Running or Succeeded |
| `ServiceInvariant.UnmetDepsAppend` | src/supervisor.rs:221-239 | the list keeps the order and the repetitions of the declaration, and the first unknown name is the error |
| `DisabledServices.DisabledInEveryRunIff` | src/supervisor.rs:893-911 | for every run after boot without shutdown: all through it every disabled service has Stop as its last unhandled message, or no message, state Disabled, no child and no restart under way, if and only if no reload restarts a service whose runtime flag is off while both configurations call it enabled |
| `DisabledServices.RunPromisedIff` | src/supervisor.rs:598-918 | the same equivalence for every run from any sound state in which the promise holds and every monitor listens |
| `DisabledServices.NextObeysIff` | src/supervisor.rs:598-918 | one action of any kind keeps the promise for all services if and only if it is not such a reload |
| `DisabledServices.ReloadObeysIff` | src/supervisor.rs:815-918 | a reload keeps the promise for all services if and only if it restarts none of those |
| `DisabledServices.DisabledInEveryRun` | src/supervisor.rs:650-677 | in every run after boot in which no toggle changes the configured flag and then fails to write, the flags agree and the promise holds |
| `DisabledServices.RunInStepIff` | src/supervisor.rs:650-677 | over every run, shutdown included, runtime and configured flags agree all through it if and only if no toggle changes the configured flag and then fails to write |
| `DisabledServices.NextInStepIff` | src/supervisor.rs:650-677 | one action of any kind keeps the flags equal if and only if it is not such a toggle |
| `DisabledServices.DownTickIsIdle` | src/supervisor.rs:920-1043 | a service that is down stays down: a monitor step moves the loop on and can only clear the probe schedule |
| `DisabledServices.TickObeys` | src/supervisor.rs:948-1043 | a monitor step cannot get a disabled service past its last Stop, and leaves the flag alone |
| `DisabledServices.TickHandles` | src/supervisor.rs:934-1003 | a step acts on the message in hand or on none; the others stay in order |
| `DisabledServices.DisableSettles` | src/supervisor.rs:934-1003 | a disabled service is down once its monitor has finished its iteration and spent two steps on each queued message, whatever they are |
| `DisabledServices.KeptObeysIff` | src/supervisor.rs:893-911 | a reload keeps the promise for a service if and only if it does not restart one whose runtime flag is off while both configurations say enabled |
| `DisabledServices.KeptFlag` | src/supervisor.rs:893-911 | after a reload the runtime flag of a kept service is the new configured flag if and only if the configured flag changed or they agreed before |
| `DisabledServices.FailedWriteInStepIff` | src/supervisor.rs:650-677 | a failed override write leaves the flags in agreement if and only if the service is unknown or already had that flag |
| `DisabledServices.SetEnabledObeys` | src/supervisor.rs:650-677 | an enable or disable call, written or not, keeps every service obedient |
| `DependencyGating.StoppedStaysStopped` | src/supervisor.rs:1015-1030 | over every run in which nobody addresses it, a stopped service is exactly as it was, even when its dependencies become ready |
| `DependencyGating.StartSpawnsIff` | src/supervisor.rs:1206-1270 | a start spawns exactly one child if and only if the service is enabled, its dependencies are known, it is forced or they are all Running or Succeeded, there is a start command or a command, and the spawn itself works; otherwise none |
| `DependencyGating.WaitsExactlyWhileHeld` | src/supervisor.rs:1015-1030 | over every run that leaves a waiting service alone, it keeps waiting, and spawns nothing, if and only if at each of its retries every dependency exists and some dependency is not ready |
| `DependencyGating.WaitingTickIff` | src/supervisor.rs:1015-1030 | a monitor step ends the wait if and only if it is a retry that nothing holds back |
| `DependencyGating.RetrySpawns` | src/supervisor.rs:1015-1030 | a retry with every dependency ready spawns the service |
| `DependencyGating.SpawnsInTime` | src/supervisor.rs:1015-1030 | over every run that leaves a waiting service alone, it has been spawned after at most five steps of its monitor, if its dependencies are ready at its retry and the spawn works |
| `ReloadDiff.KeptIsSilentIff` | src/supervisor.rs:893-911 | a kept service gets no message if and only if its flag is unchanged and its definition is unchanged or it is disabled; then its whole record is untouched |
| `ReloadDiff.ReloadKeepsUnchanged` | src/supervisor.rs:893-911 | services with the same definition and flag keep runtime, queue and monitor through a reload |
| `ReloadDiff.QuietReload` | src/supervisor.rs:815-918 | a reload that changes no definition and no flag changes nothing but the stored configuration |
| `ReloadDiff.ReloadTwice` | src/supervisor.rs:815-918 | reloading the same configuration again has no effect at all |
| `ReloadDiff.OverrideFollowsFlag` | src/config.rs:799-805 | setting a flag in the override file has the same effect on the loaded configuration as flipping it in memory |
| `ReloadDiff.ReloadAfterToggleIsQuiet` | src/supervisor.rs:650-677 | re-reading the disk right after a successful enable or disable sends no message and touches no service |
| `Outcomes.StartEndsIn` | src/supervisor.rs:1206-1331 | the state after a start, for every combination of flag, dependencies, force, spawn result, kind, waiting time and early exit code; only a daemon that stayed up is tracked |
| `Outcomes.StartIsOneAttempt` | src/supervisor.rs:1206-1331 | a start is exactly one attempt and stops no child, runs no probe and changes no counter or streak |
| `Outcomes.ExitLeadsTo` | src/supervisor.rs:1155-1204 | the exit of the tracked child is taken; a restart is announced and counted if and only if it is an enabled daemon whose policy asks for it outside shutdown; otherwise the exit code alone decides between Succeeded and Failed |
| `Outcomes.BackOffLeadsTo` | src/supervisor.rs:1198-1203 | after the back-off there is exactly one attempt, under the definition read at the exit, whether or not the stop flag has risen |
| `Outcomes.StopLeadsTo` | src/supervisor.rs:954-968 | a stop takes away child, pid, probe schedule and streak, starts nothing, and ends in Stopped or Disabled according to the flag |
| `Outcomes.RestartLeadsTo` | src/supervisor.rs:969-989 | a restart stops the child; a daemon whose restart command succeeds is Running, untracked, without a start attempt, and everything else gets exactly one attempt |
| `Outcomes.ProbeLeadsTo` | src/supervisor.rs:1053-1138 | a probe runs if and only if it is due; failures are counted; a restart happens if and only if the failure completes the threshold; a success clears the streak and heals a failed job |
| `Outcomes.StartReplyMeaning` | src/supervisor.rs:598-625 | a start request succeeds if and only if the service is enabled with known dependencies and its monitor still listens; the reply lists exactly the dependencies that are not ready and says whether they are waited for |
| `Outcomes.ToggleMeaning` | src/supervisor.rs:650-677 | a toggle succeeds if and only if the service exists, the override was written and the monitor still listens; it touches no other service, and a failed write leaves all services and the override alone |
| `Outcomes.FollowMeaning` | src/supervisor.rs:187-207 | after a toggle the state is Disabled exactly when the flag is off, one Start or Stop is appended unless the monitor has left, and the monitor is left alone |
| `Histories.StartTells` | src/supervisor.rs:1206-1331 | the states a start reports, in order, and the command it runs, for every combination of flag, dependencies, force, command, spawn and early exit: waiting, or Starting and then Running, Succeeded or Failed |
| `Histories.StartMessageTells` | src/supervisor.rs:990-1002 | a start message, or a start put off before, reports and runs that, schedules the probe, and leaves queue, flag and place alone |
| `Histories.StartKeepsRest` | src/supervisor.rs:1206-1331 | a start changes nothing about the monitor but the tracked child |
| `Histories.StopTells` | src/supervisor.rs:954-968 | a stop reports Stopping and then Stopped or Disabled, and runs the stop command, the verb or nothing, child or no child |
| `Histories.LeaveTells` | src/supervisor.rs:925-953 | leaving runs the stop command, reports Stopped and gives up the child |
| `Histories.RestartTells` | src/supervisor.rs:969-989 | a restart runs the stop command, then the restart command (its own, the verb, or stop and start in one); a daemon it brings up is reported Running, anything else continues like a start |
| `Histories.ExitTells` | src/supervisor.rs:1155-1204 | an exit is reported as Pending, and then as Restarting with one counted restart, or as Succeeded or Failed by the exit code |
| `Histories.ProbeTells` | src/supervisor.rs:1053-1138 | what a probe reports (nothing, a healed job, a failure with its reason, or a failure, Restarting, a counted restart and a start), the commands it runs, and exactly when a next probe is scheduled |
| `Histories.NothingToDo` | src/supervisor.rs:990-1030 | a start for a tracked child, a look at a running child and a retry of a service that does not wait change nothing |
| `Histories.SetStateTells` | src/supervisor.rs:131-169 | a state change is one event with time, old and new state, unless the state is the same, and touches nothing outside the runtime record |
| `Requests.StartRequestMeaning` | src/supervisor.rs:598-625 | a start is refused, in this order, for an unknown name, a disabled service, the first unknown dependency and a monitor that has left; otherwise the queue gains that start and nothing else changes |
| `Requests.StopRequestMeaning` | src/supervisor.rs:627-635 | a stop is refused exactly for an unknown name and a monitor that has left; otherwise the queue gains Stop and nothing else changes |
| `Requests.RestartRequestMeaning` | src/supervisor.rs:637-648 | a restart is refused exactly for an unknown name, a disabled service and a monitor that has left; otherwise the queue gains Restart and nothing else changes |
| `Requests.EnabledMeaning` | src/supervisor.rs:650-677 | result and effect of a toggle for every combination of known name, written override and listening monitor |
| `Requests.ConfiguredFlag` | src/supervisor.rs:650-660 | setting a configured flag changes that flag and no other field of any service |
| `Requests.FlagMeaning` | src/supervisor.rs:187-207 | off is Disabled at once; on turns Disabled into Pending and keeps every other state; a changed state is one event and shows neither pid nor uptime |
| `Requests.DefinitionEqIff` | src/supervisor.rs:1364-1377 | a reload compares exactly these fifteen fields |
| `Requests.ReloadMeaning` | src/supervisor.rs:815-918 | after a reload exactly the services of the new configuration are there; each is new, with a start when enabled, or kept, with a start or stop for a changed flag and then a restart for a changed definition, in that order |
| `Requests.BootMeaning` | src/supervisor.rs:303-335 | after boot every configured service has a fresh record, and exactly those in the boot sequence have one start queued |
| `Requests.StopAllMeaning` | src/supervisor.rs:1333-1361 | shutdown raises the flag and puts Stop and then Quit behind the queue of every service whose monitor listens, and changes nothing else |
| `Requests.StepTouchesOnly` | src/supervisor.rs:920-1043 | a monitor step changes the record of its own service and the exit registry, and nothing else |
| `SpawnSteps.TickSpawnsIff` | src/supervisor.rs:920-1043 | a monitor step spawns one child if and only if it meets the guards of its place in the loop (message and child, restart command, waiting state, failed probe; then enabled, dependencies, command and a spawn that works), and otherwise none; the stop flag is not among them |
| `SpawnSteps.SpawnsInRunIff` | src/supervisor.rs:920-1043 | over every run a service is spawned exactly as often as a step of its monitor meets its guards, so not at all if and only if none does |
| `Shutdown.SpawnsAfterShutdownIff` | src/supervisor.rs:925-1043 | over every run after the stop flag is up, a service is spawned once if and only if the first step of its monitor meets its guards, and otherwise never |
| `Shutdown.SpawnsAfterShutdown` | src/supervisor.rs:925-1043 | over every run after the stop flag is up, counted step by step through removals and returns, a service is spawned at most once, and not at all unless its monitor was committed to a start when the flag rose; after one step it is committed to nothing |
| `Shutdown.TickSpawns` | src/supervisor.rs:920-1043 | a monitor step spawns if and only if it meets its guards, which takes a commitment, and under the flag it commits to nothing new |
| `Shutdown.OnlyStepsSpawn` | src/supervisor.rs:587-918 | only a step of its own monitor spawns a service or commits it to a start |
| `Shutdown.SpawnAfterFlag` | src/supervisor.rs:1333-1345 | raising the flag between two steps changes nothing about whether the second one spawns |
| `LateStarts.StartInHand` | src/supervisor.rs:990-1002 | counterexample run from boot: the flag rises after the start message has been received, and the start happens |
| `LateStarts.RestartAfterBackOff` | src/supervisor.rs:1187-1203 | counterexample run from boot: a daemon starts, exits and backs off, the flag rises, and the restart happens |
| `LateStarts.StartByRetry` | src/supervisor.rs:1015-1030 | counterexample run from boot: a waiting service's dependency comes up, the flag rises after the retry has found it clear, and the start happens |
| `LateStarts.RestartByProbe` | src/supervisor.rs:1033-1042 | counterexample run from boot: the flag rises after the monitor has found it clear for a probe, the probe fails, and the restart happens |
| `Shutdown.LeavesInTime` | src/supervisor.rs:925-932 | once the flag is up, every monitor that stays configured leaves its loop within three of its steps, whatever else happens |
| `Shutdown.TickLeaves` | src/supervisor.rs:925-932 | a monitor at the head of its loop then leaves it in state Stopped without child or pid |
| `Shutdown.LeftWithoutChild` | src/supervisor.rs:925-953 | in every run the monitor of a configured service that has left its loop tracks no child |
| `Shutdown.LeaveLoopIsGone` | src/supervisor.rs:949-953 | leaving stops the tracked child exactly once and spawns nothing |
| `Reaper.PublishKeepsValid` | src/reaper.rs:34-44 | publishing keeps the map equal to the outstanding exits and within its bound, and the new exit is outstanding |
| `Reaper.TakeKeepsValid` | src/reaper.rs:47-49 | a take hands out the latest published code of that pid, and only once |
| `Reaper.ExitsAreConserved` | src/reaper.rs:34-49 | published exits are exactly those taken, dropped, or still held |
| `Reaper.PublishLosesIff` | src/reaper.rs:34-44 | publishing loses an exit only when its pid is already held or the registry is full with 4096 others, and then exactly one |
| `Reaper.WaitAccounts` | src/reaper.rs:51-72 | every exit that arrives during a wait is published, and the one waited for is taken if it is there |
| `Reaper.ExitRegistry.Record` | src/reaper.rs:34-44 | the object's publish computes the specified step, with the evicted entry chosen from outside |
| `Reaper.ExitRegistry.TakeExit` | src/reaper.rs:47-49 | the object's take computes the specified step |
| `Reaper.ExitRegistry.WaitTakeExit` | src/reaper.rs:52-72 | waiting takes the exit once it has arrived, or reports a timeout |
| `MonitorThread.ServiceMonitor.PushEventInto` | src/supervisor.rs:87-104 | appends to the ring, dropping the oldest event when it is full, as specified |
| `MonitorThread.ServiceMonitor.ApplyState` | src/supervisor.rs:131-169 | performs the specified state change on the runtime record |
| `MonitorThread.ServiceMonitor.CountRestart` | src/supervisor.rs:171-176 | performs the specified counter step |
| `MonitorThread.ServiceMonitor.CountLivenessFailure` | src/supervisor.rs:178-185 | performs the specified counter step |
| `MonitorThread.ServiceMonitor.FindUnmetDeps` | src/supervisor.rs:221-239 | the loop over dependencies computes the specified list or error; it finds nothing if and only if every dependency is known and Running or Succeeded |
| `MonitorThread.ServiceMonitor.StopChild` | src/supervisor.rs:1140-1153 | refines the specified stop, including the stop command and the wait for the exit |
| `MonitorThread.ServiceMonitor.StartProcess` | src/supervisor.rs:1206-1250 | refines the specified start |
| `MonitorThread.ServiceMonitor.LaunchProcess` | src/supervisor.rs:1251-1330 | refines the specified spawn with all outcomes for daemons and jobs |
| `MonitorThread.ServiceMonitor.HandleExit` | src/supervisor.rs:1155-1204 | refines the specified reaction to an exit |
| `MonitorThread.ServiceMonitor.CheckLiveness` | src/supervisor.rs:1053-1138 | refines the specified probe step |
| `MonitorThread.ServiceMonitor.RestartUnhealthy` | src/supervisor.rs:1120-1137 | refines the specified liveness restart |
| `MonitorThread.ServiceMonitor.OnStop` | src/supervisor.rs:954-968 | refines the specified handling of Stop |
| `MonitorThread.ServiceMonitor.OnRestart` | src/supervisor.rs:969-989 | refines the specified handling of Restart, with or without a restart command |
| `MonitorThread.ServiceMonitor.OnStart` | src/supervisor.rs:990-1002 | refines the specified handling of Start, which a tracked child makes a no-op |
| `MonitorThread.ServiceMonitor.Leave` | src/supervisor.rs:926-953 | refines the specified exit from the loop on Quit or shutdown |
| `MonitorThread.ServiceMonitor.LookAtChild` | src/supervisor.rs:1006-1015 | refines the specified look at the child, including the decision to restart or to retry |
| `MonitorThread.ServiceMonitor.StartAgain` | src/supervisor.rs:1198-1203 | refines the specified start after a back-off or a wait |
| `MonitorThread.ServiceMonitor.RetryWaiting` | src/supervisor.rs:1015-1030 | refines the specified retry |
| `MonitorThread.ServiceMonitor.ReceiveOrLeave` | src/supervisor.rs:925-947 | refines the specified head of the loop |
| `MonitorThread.ServiceMonitor.Step` | src/supervisor.rs:920-1043 | one step of the loop, from any place in it, computes exactly the specified step |
| `Supervisor.Supervisor.constructor` | src/supervisor.rs:303-335 | the new object represents the initial state: one fresh record per configured service |
| `Supervisor.Supervisor.SendTo` | src/supervisor.rs:587-595 | appends the message to the named queue, or reports an unknown name or a monitor that has left |
| `Supervisor.Supervisor.Boot` | src/supervisor.rs:681-727 | succeeds exactly on closed acyclic configurations and then sends one start to each service of a boot sequence, in that order, as logged; the result is a boot state of the run theorems |
| `Supervisor.Supervisor.RequestStart` | src/supervisor.rs:598-625 | refines the specified request, with its error cases and replies |
| `Supervisor.Supervisor.RequestStop` | src/supervisor.rs:627-635 | succeeds if and only if the service is known and its monitor listens; the channel map then gains one Stop, and is otherwise unchanged |
| `Supervisor.Supervisor.RequestRestart` | src/supervisor.rs:637-648 | succeeds if and only if the service is known and enabled and its monitor listens; the channel map then gains one Restart, and is otherwise unchanged |
| `Supervisor.Supervisor.ApplyEnabled` | src/supervisor.rs:187-207 | flips the flag, adjusts the state and queues the follow-up message, as specified |
| `Supervisor.Supervisor.RequestEnabled` | src/supervisor.rs:650-677 | refines the specified call, including the half-done effect of a failed write |
| `Supervisor.Supervisor.ApplyReload` | src/supervisor.rs:815-918 | removals and updates on the three maps together compute the specified reload |
| `Supervisor.Supervisor.RunMonitor` | src/supervisor.rs:920-1043 | a step of one monitor changes the supervisor exactly as the specified step does |
| `Supervisor.Supervisor.StopAllOrdered` | src/supervisor.rs:1333-1361 | raises the flag; every configured service whose monitor listens has Stop and Quit behind its queue; in the log of sends all stops precede all quits and, when the configuration can be sorted, the stop to a service precedes the stop to whatever it depends on |
| `Supervisor.Supervisor.StopOrder` | src/supervisor.rs:1335-1345 | the order of the stops is the shutdown order, or the reverse of the configuration when it cannot be sorted |
| `TopoSort.TopologicalSort` | src/graph.rs:13-79 | succeeds if and only if names are distinct, dependencies known and the graph acyclic; then it is a permutation with dependencies first, and at every position no service that could stand there has a lower `orderPriority`, or the same and an earlier name; otherwise it names an unknown dependency, or a service that transitively depends on a cycle, or, on an acyclic graph with a repeated name, "unknown" |
| `TopoSort.BuildGraph` | src/graph.rs:14-40 | open-dependency counts and adjacency lists match the declared entries with their multiplicities; the error names an undeclared dependency |
| `TopoSort.Relax` | src/graph.rs:48-62 | releasing the dependents of a finished service keeps counts and ready set exact, and no count goes below zero |
| `TopoSort.PopOne` | src/graph.rs:48-62 | takes, of the ready services, the one with the lowest priority number and the first name among those, which extends a greedy topological prefix by one |
| `StartOrder.NameLessIff` | src/graph.rs:42-49 | a name comes earlier if and only if it is a proper prefix or has the smaller character at the first difference |
| `StartOrder.PopFirst` | src/graph.rs:48-49 | the popped key has the lowest priority number, and among those the first name |
| `TopoSort.TopologicalIsAcyclic` | src/graph.rs:64-79 | a configuration with a topological order has no dependency cycle |
| `TopoSort.LeftoverIsStuck` | src/graph.rs:64-75 | a service left with open dependencies leads to a cycle |
| `TopoSort.LeftoverExists` | src/graph.rs:64-75 | with distinct names, a short result leaves such a service |
| `BootOrder.GreedyIsLeast` | src/graph.rs:42-62 | at the first position where another topological order differs, the result has the lower priority number, or the same and the earlier name |
| `BootOrder.LeastIsUnique` | src/graph.rs:42-62 | that order is unique |
| `BootOrder.OrderIgnoresListing` | src/graph.rs:42-62 | the order depends only on which services there are, not on how they are listed |
| `BootOrder.PartitionBoot` | src/graph.rs:83-104 | both lists are subsequences of the sorted order and together hold exactly the enabled services, split by kind |
| `BootOrder.BootSequenceMeaning` | src/supervisor.rs:681-727 | a boot sequence holds exactly the enabled services, each once, and every background service before every foreground one |
| `BootOrder.BootAfterDependencies` | src/graph.rs:83-104 | within a kind, a service is started after the services of that kind it depends on |
| `BootOrder.SelectMeaning` | src/graph.rs:90-102 | selecting keeps the order and picks exactly the enabled services of one kind |
| `BootOrder.ReversedIsShutdown` | src/graph.rs:107-111 | reversing a topological order puts every dependent before its dependencies |
| `BootOrder.ShutdownOrder` | src/graph.rs:107-111 | same success condition as the sort; the result is a shutdown order and the reverse of the boot order |
| `Describe.Subgraph` | src/supervisor.rs:513-565 | the search ends, visits exactly the services connected to the subject in either direction, and collects exactly the dependency edges touching them, all of which have both ends visited |
| `Describe.BuildAdjacency` | src/supervisor.rs:513-528 | both neighbour maps list exactly the declared dependencies |
| `DepTree.FormatDepGraph` | src/cli.rs:342-388 | on every graph, cyclic or not: the roots are the parentless nodes in order (or the least name), the expanded nodes are exactly those reachable from them, each shown in full once, with one line per root and one per distinct edge leaving an expanded node; every line carries the right state, repeat marker, branch and prefix |
| `DepTree.WriteTreeNode` | src/cli.rs:396-440 | printing a node ends, marks it and only nodes reachable from it, leaves no marked node half done except those still open, and prints each newly marked node's edges once, correctly laid out |
| `DepTree.WriteKids` | src/cli.rs:424-439 | the same for the children of a node just marked |
| `TreeLines.LayoutNode` | src/cli.rs:404-435 | a node's line followed by a correct drawing of its children is a correct drawing: prefixes continue the line above, repeats are marked exactly when the name was shown before |
| `TreeLines.LayoutKid` | src/cli.rs:436-439 | drawing the next child keeps siblings ascending and the last branch marked exactly on the last child |
| `TreeLines.LayoutAppend` | src/cli.rs:436-439 | two correct stretches below the same line, shown one after the other, are a correct stretch |
| `TreeLines.RenderMeaning` | src/cli.rs:409-435 | the literal form of a line: two columns for a root, a branch or, for the last child, a corner behind the prefix, name and state, and the repeat marker; and what its children have in front |
| `TreeLines.DisplayTellsApart` | src/cli.rs:404-412 | no two states are displayed alike |
| `DepTree.AcyclicIsUnderRoots` | src/cli.rs:342-388 | without cycles every node is reachable from a chosen root |
| `DepTree.AcyclicTreeIsComplete` | src/cli.rs:342-440 | on an acyclic graph every node is shown in full exactly once and every edge printed exactly once |
| `Watch.FilterRespectsViews` | src/watch.rs:184-203 | listings that differ only in pids and counters give equal filtered views |
| `Watch.ViewsEqIff` | src/watch.rs:195-203 | listings are view-equal if and only if they have the same names, states and labels in the same order |
| `Watch.FilterAppend` | src/watch.rs:184-193 | filtering treats each row alone and keeps the order |
| `Watch.FilterOne` | src/watch.rs:184-193 | a row is kept if and only if it carries a label for every key |
| `Watch.Follower.Offer` | src/watch.rs:113-131 | the slot shows names, states and labels of the latest filtered listing; the generation moves, by one and wrapping, if and only if these differ from what the slot showed before |
| `Watch.WatchHub.TrySubscribe` | src/watch.rs:81-110 | a subscription is refused exactly at eight followers; otherwise an empty slot is added and the count is the list length |
| `Watch.WatchHub.Publish` | src/watch.rs:113-131 | every current follower is offered the listing exactly once, and its slot then shows names, states and labels of what its filter leaves of it |
| `Watch.WatchHub.Unsubscribe` | src/watch.rs:175-182 | exactly that follower is removed and the count is the list length |
| `Watch.WatchHub.WaitTimeout` | src/watch.rs:145-172 | whatever is published between one look at the slot and the next, a snapshot is the latest view under a new generation; a wait that times out has missed no view change if and only if there were fewer than 2^64 since the last look, and then the reader has consumed the latest view |
| `Watch.NoChangeNoNews` | src/watch.rs:113-131 | an unchanged generation count means an unchanged view |
| `Watch.CaughtUpIff` | src/watch.rs:145-172 | under the same wrapped generation nothing has changed since the last look if and only if there were fewer than 2^64 view changes since |
| `Watch.CaughtUp` | src/watch.rs:145-172 | no view change since the last look means the reader has seen the latest view |
| `Watch.WrapMissesView` | src/watch.rs:113-172 | counterexample family: after 2^64 view changes a waiting reader finds its own generation, so that it times out, and the latest view differs from the one it has seen |
| `EarlyBoot.CollectLines` | src/early_boot.rs:256-298 | the kept lines are the longest suffix of all lines, each cut to 4096 bytes, that fits 2000 lines and 256 KiB; dropped plus kept is the total |
| `EarlyBoot.CaptureWindow.PushCapturedLine` | src/early_boot.rs:300-319 | the window stays the longest fitting suffix of everything pushed, and evictions are counted |
| `EarlyBoot.ReadChunk` | src/early_boot.rs:274-286 | after any bytes the pushed lines are the newline-split input and the pending line is its cut remainder |
| `Utf8.LossyMeaning` | src/early_boot.rs:300-306 | decoding always yields well-formed UTF-8, and leaves its input alone if and only if that is well-formed, where well-formed means the encoding of Unicode scalar values |
| `Utf8.LossyOfChunk` | src/early_boot.rs:300-306 | a character at the head is kept, anything else becomes one U+FFFD |
| `Utf8.InvalidIsMaximal` | src/early_boot.rs:300-306 | what becomes one U+FFFD is the longest beginning of a character, or one byte, and no character starts there |
| `Utf8.LossyGrowth` | src/early_boot.rs:300-319 | decoding grows a line at most threefold, so a cut line always fits the byte limit |
| `EarlyBoot.TextsMeaning` | src/early_boot.rs:274-306 | every line is stored, as the decoding of its first 4096 bytes |
| `EarlyBoot.SplitIsExact` | src/early_boot.rs:256-298 | the line split loses nothing and no line holds a newline |
| `EarlyBoot.LongestFitIsUnique` | src/early_boot.rs:300-319 | there is only one longest fitting suffix |
| `EarlyBoot.ChunksDoNotMatter` | src/early_boot.rs:256-298 | the result is the same however the input is split into reads |
| `RingBuffer.BoundedBuffer.Write` | go/supervise/host.go:407-433 | terminates, reports the whole input length, and keeps the contents equal to the last bytes of all writes |
| `RingBuffer.BoundedBuffer.Append` | go/supervise/host.go:419-422 | filling free space appends to the contents |
| `RingBuffer.BoundedBuffer.Overwrite` | go/supervise/host.go:426-430 | overwriting at the position drops exactly the oldest bytes |
| `RingBuffer.BoundedBuffer.WriteSome` | go/supervise/host.go:411-431 | each round of the loop consumes at least one byte |
| `RingBuffer.BoundedBuffer.String` | go/supervise/host.go:435-442 | returns the last min(capacity, total) bytes of all writes, in order |
| `ConfigFiles.MergeMeaning` | src/config.rs:886-902 | merging gives distinct names in order of first appearance, each with its last definition |
| `ConfigFiles.MergeServiceDropins` | src/config.rs:886-902 | fails exactly when some drop-in cannot be read; otherwise the in-place merge is that merge |
| `ConfigFiles.OriginIsLast` | src/supervisor.rs:1380-1408 | the effective definition of a name is the one its origin file holds |
| `ConfigFiles.LookupNamesOrigin` | src/supervisor.rs:1380-1425 | the lookup always names the origin file, and shows the effective definition if and only if the first and last entry of that name in that file coincide |
| `ConfigFiles.DistinctFindIsLast` | src/supervisor.rs:1410-1425 | they coincide when the file lists no name twice |
| `ConfigFiles.LookupShowsFirst` | src/supervisor.rs:1410-1425 | counterexample file: it lists a name twice, loads with the second definition, and the lookup shows the first |
| `ConfigFiles.FindServiceSource` | src/supervisor.rs:1380-1425 | the scan returns the last drop-in that lists the name, else the main file, else nothing; it fails exactly on the first unreadable drop-in or, when no drop-in lists the name, on a main file that exists and cannot be read |
| `ConfigFiles.ApplyEnabledOverride` | src/config.rs:799-805 | exactly the flags named in the override change, service by service |
| `ConfigFiles.Validate` | src/config.rs:610-728 | accepts exactly nonempty distinct names, well-formed services and known dependencies; errors name a real culprit |
| `ConfigFiles.ConfigValidIff` | src/config.rs:620-700 | a configuration is accepted if and only if names are nonempty and distinct, a restart policy of always comes with a daemon, every service has a start command or a command, probes have positive interval, timeout and threshold, and dependencies are listed |
| `ConfigFiles.LoadWithDropins` | src/config.rs:919-946 | a load succeeds exactly when all drop-ins parse and the overridden merge is valid, and returns it |
| `Shell.QuoteReadsBack` | go/config/shell.go:8-10 | a quoted value is read as one token, the value itself, whatever characters it holds |
| `Shell.QuoteIsLiteral` | go/config/shell.go:8-10 | the literal form: single quotes around the value, and each quote in it closed, escaped and reopened |
| `Shell.StartCmdReadsBack` | go/config/shell.go:15-21 | lexing the start command by POSIX quoting rules gives "exec" and exactly the arguments |
| `Shell.BuildStartCmd` | go/config/shell.go:15-21 | the loop builds that command, and it reads back |
| `Frames.LengthRoundTrip` | go/client/client.go:384-413 | decoding an encoded length gives it back |
| `Frames.HeaderRoundTrip` | go/client/client.go:384-413 | encoding a decoded header gives it back |
| `Frames.LittleEndian` | go/client/client.go:384-390 | the length goes out as four base-256 digits, lowest first |
| `Frames.WriteFull` | go/client/client.go:392-406 | success means everything was sent; an error leaves a prefix sent; a writer that makes progress never causes one |
| `Frames.WriteFrame` | go/client/client.go:376-390 | an oversized payload sends nothing; success sends exactly one frame |
| `Frames.ReadFrame` | go/client/client.go:408-424 | reads back the payload of whatever frame comes first and consumes exactly its bytes; success means the stream began with that frame |
| `Frames.RoundTrip` | go/client/client.go:376-424 | any sequence of payloads up to 16 MiB, sent through arbitrarily short non-zero writes, is read back with nothing left over |

## Left out

- `ConfigFiles.Validate`: the early-boot path, label, security-context, socket-user and probe-kind checks are not modelled, because they are independent single-field checks.
- `ConfigFiles.FindServiceSource`: a drop-in is either readable for both merge and lookup or for neither; the code's lookup accepts some JSON that the typed merge refuses.
- `ConfigFiles.LoadWithDropins`: starts from the parsed main file and stops after validation; creating missing files, the checks named under `ConfigFiles.Validate` and the security preparation are not modelled.
- `Supervisor.Supervisor.StopAllOrdered`: fixes the order of sends only; monitors see the stop flag as soon as they read it, so completions may come in any order.
- Interleavings inside one API call or one monitor step: both are atomic, and the clock is constant within one. A step covers one message, one start, or one probe with the restart it may cause; a toggle or reload that falls into such a stretch takes effect before or after it.
- Commands that arrive while boot is still sending, and boot's waits for services to settle.
- `Shutdown.LeftWithoutChild`: covers configured services; the monitor of a removed service that receives its next message, or sees the stop flag, only after the configuration has been replaced leaves without stopping its child (src/supervisor.rs:925-947).
- Monitors of removed services: a reload sends Stop, waits 200 ms and sends Quit on a channel nobody else can reach; whether their threads act on these or leave at the first one depends on whether the configuration has been replaced by then. The model drops their records at once.
- Probe deadlines: whether a probe is scheduled is state, whether it is due is an input of the step.
- Shell commands and job waits that never return, and failures to create a thread.
- Process creation, signals, `waitpid`, security contexts, the service environment and log capture.
- JSON in configuration files, frames and IPC messages: parsed configurations and payloads are values.
- Collecting and sorting drop-in paths: the files are given in the order in which they are merged.
- The rest of `describe` (identity, metrics, uptime, sorting the collected nodes and edges) and of the CLI, IPC, telemetry, console and TTY code.
- Early-boot and unmount script execution, and reboot.
- Error texts and log messages; only the kind of error and the names in it are modelled.
