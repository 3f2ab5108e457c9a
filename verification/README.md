# A verified model of boardfarm's control plane, agent protocols and matching algorithms

Boardfarm hands out test boards to sessions. A control plane leases boards, starts one agent
container per session, archives diagnostics and reaps what is left over; inside a container an agent
serialises work on one worker thread and streams console output; a few greedy algorithms match
clients, packets, keystrokes and DHCP options. This project models that logic and proves what it
guarantees over every interleaving and every input.

## How it is modelled

**Control plane** (`AgentInfo`, `Lease`, `Registry`, `Launcher`, `Store`, `Reaper`, `ControlPlane`,
`ControlInvariant`, `ControlTheorems`, `ControlOutcomes`, `ControlServer`). The HTTP handlers, the reaper and the startup
code share one event loop. `ControlPlane` is the transition system: lease table, registry, containers,
store, clock, and for every request or reaper pass in flight the point at which it waits. A step is the
code between two awaits, so every interleaving of handlers is a run. What an agent, a launcher or an
HTTP request answers (start fails, agent unhealthy, config rejected, stop raises, a container dies by
itself) is a choice of the step, not an assumption. A process restart is a step too: it empties the
memory and rebuilds registry and leases from the launcher's listing. `ControlServer` holds the handlers
as methods on the live `BoardLease`, `SessionRegistry`, `FakeLauncher` and `DiagnosticsStore` objects,
and each method is proved to take exactly its step. `ControlInvariant` holds the inductive invariant,
which every step and every restart keeps, and `ControlTheorems` the properties of all reachable states. `ControlOutcomes` says
for each request, with its flags and with every answer it can get, what it leaves behind.

**Agent** (`Console`, `ConsoleStream`, `Execution`, `Session`). The event buffer is a bounded deque
refined against the unbounded log of everything appended. The console stream is a state machine that
subscribes and notes the head of the log in one step, reads history, replays it and then follows its
queue, while other threads append between any two of its steps. The execution queue is a FIFO list, one
worker whose position inside `_run` is explicit, and cancellations that may come at any time; the
session machine interleaves any number of configure and boot calls with that worker and with the jobs
of other operations.

**Algorithms** (`Wifi`, `Packets`, `Backspace`, `Dhcp`, eviction in `Reaper`, and `Sorting` for both sorts). Each loop is a method
proved equal to a function of its input; the lemmas are about the function.

### Results that are conditions

Where the code keeps a promise only under a condition, the condition is proved to be exact.

- A restart gives every running container its board's lease exactly when no two running containers
  serve one board. A stop that raised can break this, and then the rebuilt lease table may give the
  board to the container that would not stop while the healthy session on that board loses its lease
  (`RestartAfterFailedStopLosesALease`). The sessions left out in this way are a history variable,
  `dropped`. All safety results hold in every reachable state, after restarts of either kind, with
  exactly these sessions excepted where a result is about leases; after restarts with distinct boards
  the set is empty (`RestartDropsNothingIff`, `SafeRestartsDropNothing`), and as long as no stop raises
  it stays empty (`StrictMutualExclusion`).
- A restart takes a dead session back exactly if its container still ran, which happens only after a
  stop of it raised. A session that has left the registry never comes back.
- The Wi-Fi merge finds an assignment whenever there is one exactly when at most one of the band names
  in use sorts after "dual". With "2.4 GHz" and "5 GHz", or "2.4" and "5", this holds
  (`BandsInUseAlwaysMerge`); with two names after "dual" the
  client of the first takes the "dual" device that only the second needs.
- Console history is complete exactly when the matching retained events fit the read limit, and the
  stream's cursor is honoured exactly when it does not lie ahead of the head of the log, since the live
  part does not look at it.
- A boot call ends READY exactly when the job it polled is DONE or CANCELLED, or when the poll falls
  between the worker's two writes `job.state = ERROR` and `job.error = exc`. In that last case the
  session reads READY although its boot job raised (`TornPollHidesAFailure`).
- A configure completes exactly if its job ended DONE or was cancelled, and in the second case its
  callable never ran, so a session can read CONFIGURED without one (`CancelledConfigureCounts`).
- Erases at the start of a line are cleaned away, as the comment above the last substitution says they
  should be, exactly when they fall into groups of one erase and as many more as it has bytes, with at
  most one erase over. In the first pass the `.` of the pattern also matches the bytes of an erase, so
  each erase deletes a byte of the one that leads its group. For n erases of one form this means n % 4
  at most 1 ("backspace space backspace") or n % 5 at most 1 ("backspace ESC [ K"); the rest of an
  erase of the second form can even swallow a typed 'K' (`TypedCharacterIsLost`).
- Renaming repeated DHCP keys loses no pair exactly when no numbered repeat spells another key of the
  input. An option that does not occur raises UnboundLocalError and not the documented UseCaseFailure;
  of several occurrences the first numbered repeat wins over the plain one.

### Assumptions

- Session ids and job ids are fresh. A session id is "s-" and eight hexadecimal digits, so ids compare
  as the numbers they spell, and the model keeps the number. Clock readings are integers.
- `store.write_meta` and `boot.json()` do not raise, `http.delete` raises nothing but HTTPError, handlers
  are not cancelled, a start that raises leaves no container, and the two listings at startup see the
  same containers.
- Containers behave as in `FakeLauncher`: a stop that returns leaves the session not running, and a
  corpse's record stays until it is purged.
- The steps are cut at every await, also where the awaited code does not suspend, so the model has all
  interleavings of the program and some more. The page a reaper pass walks may be any list of registered
  records; the method that models the pass takes the first 10,000 of them, as the code does.

## Model

| member | source | states |
|---|---|---|
| `ControlTheorems.MutualExclusion` | boardfarm3_control/app.py:160-183 | in every reachable state a running container's session holds its board's lease unless a stop of it raised or the last restart gave the board to another session; a session left out holds nothing, and a board has at most one running container that is neither |
| `ControlTheorems.StrictMutualExclusion` | boardfarm3_control/teardown.py:179-197 | in a run with any number of restarts in which no stop raises, every running container holds its board and running boards are distinct |
| `ControlTheorems.LeaseLostOnlyToItself` | boardfarm3_control/lease.py:36-45 | between restarts, in every reachable state, a lease goes away only through a step of its own session whose container is no longer running or would not stop: a late or duplicate teardown never frees another session's board |
| `ControlTheorems.NoStrandedBoard` | boardfarm3_control/teardown.py:188-197 | in every reachable state with no create and no teardown in flight, the leases are exactly the boards of the live sessions that the last restart did not leave out, whichever failure paths were taken |
| `ControlTheorems.RestartRecovers` | boardfarm3_control/app.py:73-78 | from any reachable state, even in the middle of a create or teardown, a restart leaves the leases exactly the running sessions it does not leave out, so no corpse has one, with every running board leased to a container on it; it leaves out nobody if and only if running boards were distinct, as they are when every running container can be stopped and was not left out before |
| `ControlTheorems.AllServeMeansDistinct` | boardfarm3_control/lease.py:55-56 | if no running container would not stop or was left out, running boards are distinct, so the rebuilt dictionary drops no session |
| `ControlTheorems.RestartAfterFailedStopLosesALease` | boardfarm3_control/app.py:73-78 | there is a reachable state in which nobody was left out and from which a restart takes the lease from the healthy running session that holds it |
| `ControlTheorems.WithoutFailedStops` | boardfarm3_control/teardown.py:179-187 | a run without raising stops meets the restart condition at each of its restarts |
| `ControlTheorems.SafeRestartsDropNothing` | boardfarm3_control/app.py:73-78 | over a run whose restarts all find running boards distinct, no session is ever left out |
| `ControlTheorems.ReaperSparesTheLiving` | boardfarm3_control/reaper.py:48-64 | in every reachable state, however stale its page, a reaper step leaves record, container and store entry of every live session and of every session being created untouched, and frees no lease |
| `ControlTheorems.PurgeSparesTheRunning` | boardfarm3_control/app.py:364-373 | in every reachable state neither the reaper nor a DELETE of a corpse purges a running container of which no stop has raised |
| `ControlTheorems.SessionsNeverRevive` | boardfarm3_control/registry.py:80-97 | from every reachable state and between restarts a session only moves from absent to live to dead to gone, so a registered id is never registered again |
| `ControlTheorems.StageAdvances` | boardfarm3_control/registry.py:21-36 | the same for one step of any handler |
| `ControlTheorems.RestartRevivesIff` | boardfarm3_control/registry.py:99-109 | a restart takes a session back to an earlier stage exactly if it was dead while its container ran, which happens only after a stop of it raised |
| `ControlTheorems.GoneStaysGone` | boardfarm3_control/registry.py:29-36 | a session that has left the registry never comes back, nor does its container, over any run with any restarts |
| `ControlTheorems.TaskCanEnd` | boardfarm3_control/app.py:150-282 | in every reachable state every request or pass in flight can end by its own steps alone, without a restart, whatever the others do |
| `ControlTheorems.EverythingCanSettle` | boardfarm3_control/teardown.py:140-197 | from every reachable state, even if all agents fail from now on, all handlers can end without a restart and then no board is stranded: no handler waits for another |
| `ControlOutcomes.DeleteLeaves` | boardfarm3_control/app.py:374-384 | a DELETE of a live session, run to its end: without retain the session is gone from registry and launcher; with retain it is listed as dead since the DELETE and its container is kept and not running; if the stop raised it is listed as dead either way; its diagnostics are archived with the time of the DELETE, its board is free, and no other session is touched |
| `ControlOutcomes.DeleteAmidOthers` | boardfarm3_control/teardown.py:179-197 | the same under any interleaving with other requests, duplicates and reaper passes: once the DELETE has ended the session is not live and its container does not run unless a stop of it raised, and without retain and with a stop that returned it is gone |
| `ControlOutcomes.DeleteOfCorpseLeaves` | boardfarm3_control/app.py:364-373 | a DELETE that removes a corpse takes it out of registry, launcher and store and touches nothing else |
| `ControlOutcomes.DeleteChangesNothing` | boardfarm3_control/app.py:353-368 | an unknown session, contradictory flags, a corpse that stays and a purge that raises leave everything as it was |
| `ControlOutcomes.CreateLeaves` | boardfarm3_control/app.py:160-282 | a create whose agent gives three good answers leaves a live session with a running container on its leased board |
| `ControlOutcomes.CreateRollsBack` | boardfarm3_control/app.py:161-183 | a create on a held board changes nothing, and one whose start raises leaves every table as it was |
| `ControlOutcomes.CreateUnwinds` | boardfarm3_control/app.py:201-264 | a create whose agent fails at any of its answers leaves the session listed as dead with its container kept and its diagnostics archived, and the leases as they were |
| `ControlOutcomes.CaptureLeaves` | boardfarm3_control/app.py:397-428 | a snapshot archives the bundle as of now, serving diagnostics leaves the metadata alone, and a capture that finds nothing changes nothing |
| `ControlOutcomes.ReapPassLeaves` | boardfarm3_control/reaper.py:48-64 | a pass whose purges return removes exactly the sessions of its page that are dead for longer than the limit, and leaves every other record and container as it was |
| `ControlOutcomes.DoomedIsOverdue` | boardfarm3_control/reaper.py:50-55 | the corpses a pass stops at are the dead records of the page with a known death strictly older than the limit |
| `ControlOutcomes.RestartLeaves` | boardfarm3_control/app.py:72-78 | a restart is possible in every reachable state with every listing; the boards leased are then those of running containers, each to a container on it |
| `ControlOutcomes.CrashLeaves` | boardfarm3_control/launcher.py:767-795 | a container that dies by itself becomes a corpse with or without a time of death, and nothing else changes |
| `ControlInvariant.StepKeepsInv` | boardfarm3_control/app.py:72-384 | every step of every handler and every restart keeps the invariant behind these results |
| `ControlInvariant.RunKeepsInv` | boardfarm3_control/app.py:72-384 | so does every run, with any restarts |
| `ControlInvariant.RestartExact` | boardfarm3_control/lease.py:47-56 | after a restart all running containers own their boards exactly when these were distinct |
| `ControlInvariant.RestartDropsNothingIff` | boardfarm3_control/lease.py:47-56 | a restart leaves out a running session if and only if running boards were not distinct, and exactly those it gives no lease |
| `ControlInvariant.RestartLeasesRunning` | boardfarm3_control/app.py:76-78 | whatever the listing, a rebuilt lease names a running container of that board, never a corpse |
| `ControlInvariant.PassKeepsInv` | boardfarm3_control/reaper.py:120-136 | deleting what is reapable never takes away the store entry of a live session or of one being created |
| `ControlServers.ControlServer.CreateSession` | boardfarm3_control/app.py:160-167 | draws the lease or answers with its holder and changes nothing |
| `ControlServers.ControlServer.LauncherStarts` | boardfarm3_control/app.py:170-177 | the container runs before the session is registered |
| `ControlServers.ControlServer.LauncherRefuses` | boardfarm3_control/app.py:178-179 | a start that raises leaves no container and goes on to free the board |
| `ControlServers.ControlServer.ReleaseAfterFailedStart` | boardfarm3_control/app.py:178-183 | a failed start gives the board back |
| `ControlServers.ControlServer.AgentAccepts` | boardfarm3_control/app.py:187-282 | three good answers in a row register the session as live and active now |
| `ControlServers.ControlServer.Unwind` | boardfarm3_control/app.py:103-147 | any failure after the start registers the session and tears it down, keeping the container |
| `ControlServers.ControlServer.ArchiveBundle` | boardfarm3_control/teardown.py:140-167 | whichever tier delivers, the bundle and then the record of the death are in the store |
| `ControlServers.ControlServer.ReleaseDevices` | boardfarm3_control/teardown.py:169-173 | whatever the agent answers, the teardown goes on to the stop |
| `ControlServers.ControlServer.StopContainer` | boardfarm3_control/teardown.py:179-187 | a stop that returns takes the container out of service, one that raises is remembered |
| `ControlServers.ControlServer.FreeBoard` | boardfarm3_control/teardown.py:188-190 | the lease is freed whether or not the stop raised |
| `ControlServers.ControlServer.ForgetSession` | boardfarm3_control/teardown.py:191-197 | the session stays listed as dead if retained or unstoppable and is forgotten otherwise |
| `ControlServers.ControlServer.DeleteSession` | boardfarm3_control/app.py:347-384 | tells an unknown session, contradictory flags, a corpse that stays, one to purge and a live session to tear down apart, changes nothing in the first three cases, and passes the retain flag and the time on to the teardown |
| `ControlServers.ControlServer.PurgeContainer` | boardfarm3_control/app.py:370 | the corpse's container goes first |
| `ControlServers.ControlServer.CompletePurge` | boardfarm3_control/app.py:369-373 | a purged corpse leaves store and registry |
| `ControlServers.ControlServer.PurgeRefused` | boardfarm3_control/app.py:370 | a purge that raises ends the request, or the reaper's pass, and changes nothing else |
| `ControlServers.ControlServer.BeginReaping` | boardfarm3_control/reaper.py:48-55 | a pass stops at exactly the dead records with a known death older than the limit of its page, which holds the whole registry unless that has more than 10,000 records |
| `ControlServers.ControlServer.PurgeCorpse` | boardfarm3_control/reaper.py:56 | the first pending corpse is purged by the id its stale record names |
| `ControlServers.ControlServer.ForgetCorpse` | boardfarm3_control/reaper.py:56-64 | after a purge the pass moves on and, after the last, does its store part with everything that promises |
| `ControlServers.ControlServer.Startup` | boardfarm3_control/app.py:72-89 | startup is the restart step for the launcher's listing |
| `Leases.BoardLease.Acquire` | boardfarm3_control/lease.py:20-34 | acquires exactly when the board is free and never overwrites a holder |
| `Leases.BoardLease.Release` | boardfarm3_control/lease.py:36-45 | the table without the session's boards |
| `Leases.BoardLease.RebuildFrom` | boardfarm3_control/lease.py:47-56 | the table a dictionary comprehension over the listing builds, later sessions overwriting earlier ones |
| `Leases.ReleaseFreesOnlyItsOwn` | boardfarm3_control/lease.py:43-45 | a release keeps every lease of every other session |
| `Leases.RebuildDropsNothingIff` | boardfarm3_control/lease.py:56 | the comprehension keeps every listed session if and only if no two name one board |
| `Leases.RebuiltLeaseIsListed` | boardfarm3_control/lease.py:56 | a board is leased exactly when it is listed, and to a session listed for it |
| `Leases.LastListedIsLeased` | boardfarm3_control/lease.py:56 | of the sessions listed for a board the last one gets it |
| `Registries.SessionRegistry.Add` | boardfarm3_control/registry.py:21-27 | a new record goes to the end of the listing order, a known one keeps its place |
| `Registries.SessionRegistry.Remove` | boardfarm3_control/registry.py:29-36 | record, order entry and activity go together |
| `Registries.SessionRegistry.MarkDead` | boardfarm3_control/registry.py:80-97 | replaces a listed record by a dead one and does nothing for an unknown session |
| `Registries.SessionRegistry.ListPage` | boardfarm3_control/registry.py:48-60 | the slice of the insertion order, with Python's rule for negative bounds, and the number of all records |
| `Registries.SessionRegistry.Rebuild` | boardfarm3_control/registry.py:99-109 | the registry becomes the listing, in its order |
| `Registries.PageIsRegistered` | boardfarm3_control/registry.py:58-60 | a page shows no record that is not registered |
| `Registries.LargePageIsComplete` | boardfarm3_control/registry.py:58-60 | a page with room for the registry shows every record |
| `Registries.SliceIs` | boardfarm3_control/registry.py:60 | a slice from the front has as many records as asked for, or as there are left, each in its place |
| `Registries.SliceFromEnd` | boardfarm3_control/registry.py:60 | negative bounds count from the end |
| `Registries.WithoutKeepsOrder` | boardfarm3_control/registry.py:35 | removing a session leaves the others in their order |
| `Launchers.StopStops` | boardfarm3_control/launcher.py:174-189 | a stop that returns leaves the session not running and no other session changed |
| `Launchers.FakeLauncher.Start` | boardfarm3_control/launcher.py:132-172 | a fresh live record on the next port |
| `Launchers.FakeLauncher.Stop` | boardfarm3_control/launcher.py:174-189 | forgets the session or keeps it as a dated corpse |
| `Launchers.FakeLauncher.ListSessions` | boardfarm3_control/launcher.py:225-231 | every record once |
| `Stores.TotalWithout` | boardfarm3_control/store.py:126-135 | the total is independent of the walk's order: one directory's size can always be split off |
| `Stores.WritingGrows` | boardfarm3_control/store.py:66-113 | writing a bundle or metadata changes the total by the new file less the one it replaces |
| `Stores.TotalOfOne` | boardfarm3_control/store.py:126-135 | a directory counts all its files, and an empty store nothing |
| `Stores.DiagnosticsStore.WriteBundle` | boardfarm3_control/store.py:96-113 | reports the bytes written and leaves metadata and other directories alone |
| `Stores.DiagnosticsStore.ListSessions` | boardfarm3_control/store.py:115-124 | every directory once |
| `Stores.DiagnosticsStore.Total` | boardfarm3_control/store.py:126-135 | the size of the whole store |
| `Reapers.ReapAgedBundles` | boardfarm3_control/reaper.py:87-137 | deletes exactly the expired directories of sessions that are not live, reports exact counts and leaves exactly the remaining reapable ones as candidates |
| `Reapers.SweepAllMeans` | boardfarm3_control/reaper.py:117-137 | the sweep's outcome does not depend on the order in which the directories come |
| `Reapers.EvictOverCap` | boardfarm3_control/reaper.py:140-180 | evicts a prefix of the order by death and id, the shortest that brings the store under the cap, and ends under the cap or with no candidate left; the bytes reported are the drop in the store's size |
| `Reapers.EvictionDeletesReapable` | boardfarm3_control/reaper.py:167-174 | evicting k candidates removes exactly k directories, all reapable, and all reapable ones when none is left |
| `Reapers.EvictsOldestFirst` | boardfarm3_control/reaper.py:167-174 | whatever is evicted died no later than any candidate that is kept, and has the smaller id if they died together |
| `Reapers.ReapBundles` | boardfarm3_control/reaper.py:219-233 | the counts of a pass are exact, nothing expired is left, what else was deleted is older than every directory that could have been, and a store still over the cap holds only live sessions and directories without a recorded death |
| `Reapers.ByDeathIsOrdered` | boardfarm3_control/reaper.py:167 | the candidates in order of death, then id, none added or lost |
| `Consoles.EventBuffer.Append` | boardfarm3/api/console.py:50-85 | the deque is the last events of the log, maxlen of them once there are so many, numbers are consecutive, and every subscriber's consumed and queued events are the log from its subscription on |
| `Consoles.EventBuffer.Subscribe` | boardfarm3/api/console.py:173-188 | a new subscriber owes exactly the events from now on |
| `Consoles.EventBuffer.Read` | boardfarm3/api/console.py:87-130 | of the retained events from the cursor to the next one exactly those that pass each filter that is set, in order and no more than the limit; the next cursor is the end unless the limit was reached |
| `Consoles.PageSelects` | boardfarm3/api/console.py:110-130 | a page is exactly the matching retained events between its start and the returned cursor, and stops early only when full |
| `Consoles.PageAnswers` | boardfarm3/api/console.py:110-130 | the same of the page of the log |
| `Consoles.PageCompleteIff` | boardfarm3/api/console.py:121-129 | a read returns all retained matches if and only if they fit the limit |
| `Consoles.TailGrows` | boardfarm3/api/console.py:44-80 | appending to a full deque leaves the tail of the longer log |
| `Consoles.CursorPagination` | boardfarm3/api/console.py:87-130 | chained reads with appends in between, from any start up to the head of the log, also a negative one, return strictly increasing numbers, repeat nothing, and skip a match only if it was evicted before the read that passed it |
| `Consoles.PagesConcatenate` | boardfarm3/api/console.py:125-130 | with no eviction ahead of a read, the pages together are one unlimited read |
| `ConsoleStreams.ExactlyOnce` | boardfarm3/api/app.py:331-358 | under any interleaving of appends, what is sent is a prefix of the filtered log from the stream's base, in order, without gap or repetition across the switch to live delivery, and all of it once the queue is drained |
| `ConsoleStreams.FramesAre` | boardfarm3/api/app.py:331-358 | event by event: every frame is an event of the log and of the chosen device, numbered from the cursor, the oldest event retained at the read or the head at the start; numbers increase, none is left out before a frame that was sent, and none at all once the queue is drained |
| `ConsoleStreams.StreamCatchesUp` | boardfarm3/api/app.py:338-358 | from any point a stream can send everything it owes without waiting for an append |
| `ConsoleStreams.HistoryIsComplete` | boardfarm3/api/app.py:338 | a deque no longer than the read limit is read in one go |
| `ConsoleStreams.CursorHonouredIff` | boardfarm3/api/app.py:337-357 | no frame below the cursor is ever sent if and only if the cursor is not ahead of the head |
| `ConsoleStreams.ConsoleStream.constructor` | boardfarm3/api/app.py:333-337 | subscription and head are taken together |
| `ConsoleStreams.ConsoleStream.Read` | boardfarm3/api/app.py:338 | the history read is the stream's history step |
| `ConsoleStreams.ConsoleStream.ReplayOne` | boardfarm3/api/app.py:339-342 | a historic event is sent only if it lies before the live part |
| `ConsoleStreams.ConsoleStream.FollowOne` | boardfarm3/api/app.py:347-358 | a live event is sent only if it is of the chosen device |
| `ConsoleStreams.ConsoleStream.AppendElsewhere` | boardfarm3/api/console.py:71-85 | an append by anybody is a step of the stream |
| `Executions.OneAtATimeInOrder` | boardfarm3/api/execution.py:77-113 | in every interleaving a running job is the one `_running` names, callables are called in submission order, none twice, none of a cancelled job, and none is left out once the executor is empty |
| `Executions.RunIsMonotone` | boardfarm3/api/execution.py:97-109 | terminal states are final and no call is taken back |
| `Executions.CancelledNeverRuns` | boardfarm3/api/execution.py:170-187 | after a cancel that answered True the callable is never called, whatever follows |
| `Executions.StartedNeverCancelled` | boardfarm3/api/execution.py:88-93 | a called job is never cancelled and every later cancel of it answers False |
| `Executions.CancellableIsPending` | boardfarm3/api/execution.py:181-187 | only a job the worker has not taken can be cancelled |
| `Executions.CancelTakesEffectIff` | boardfarm3/api/execution.py:170-187 | over every run, a cancel cancels its job exactly if that is among the newest max_jobs submissions and still queued, whatever the worker does, and otherwise changes nothing |
| `Executions.TakenJobEnds` | boardfarm3/api/execution.py:88-113 | a job the worker takes ends DONE if its callable returns and ERROR with the exception stored if it raises, and the worker is free again |
| `Executions.Retention` | boardfarm3/api/execution.py:67-75 | the listed jobs are exactly the last max_jobs submissions in order, whatever their states |
| `Executions.ExecutionQueue.SubmitJob` | boardfarm3/api/execution.py:115-142 | a fresh job at the end of record and executor, oldest records dropped |
| `Executions.ExecutionQueue.Record` | boardfarm3/api/execution.py:67-75 | the record ends with the new job and holds no more than max_jobs |
| `Executions.ExecutionQueue.StartNext` | boardfarm3/api/execution.py:88-93 | drops a cancelled job, starts any other |
| `Executions.ExecutionQueue.CallReturns` | boardfarm3/api/execution.py:106-109 | the job is DONE before the worker lets go of it |
| `Executions.ExecutionQueue.CallRaises` | boardfarm3/api/execution.py:97-98 | the job is in ERROR before its exception is stored |
| `Executions.ExecutionQueue.StoreException` | boardfarm3/api/execution.py:99-105 | then the exception is stored |
| `Executions.ExecutionQueue.LeaveJob` | boardfarm3/api/execution.py:110-113 | the worker is idle again |
| `Executions.ExecutionQueue.Get` | boardfarm3/api/execution.py:144-152 | finds a job if and only if it is still listed |
| `Executions.ExecutionQueue.CancelJob` | boardfarm3/api/execution.py:170-187 | answers True if and only if a listed job with the id is queued, then cancels that job, and changes no other |
| `AgentSessions.BootsNeverExceedConfigures` | boardfarm3/api/session.py:99-115 | boot jobs submitted never exceed configures completed: two boots never pass the check for one configure |
| `AgentSessions.OutcomesMean` | boardfarm3/api/session.py:99-129 | a session that has left CREATED had a configure job end DONE or CANCELLED; FAILED means that a boot job raised and the error is recorded; READY means that one ended DONE or CANCELLED or that a poll was torn |
| `AgentSessions.ReadyMeansBooted` | boardfarm3/api/session.py:127-128 | without cancellations and torn polls, READY is reached only after a boot job ended DONE, and CONFIGURED only after a configure job did |
| `AgentSessions.BootEndsReadyIff` | boardfarm3/api/session.py:117-128 | the exact condition under which a poll ends a boot as READY |
| `AgentSessions.BootEndsFailedIff` | boardfarm3/api/session.py:117-126 | a poll ends the boot as FAILED, with the error recorded, exactly if the job is in ERROR with its exception stored, and goes on exactly while the job is queued or running |
| `AgentSessions.BootBeginsIff` | boardfarm3/api/session.py:108-112 | a boot moves a CONFIGURED session to BOOTING and leaves any other as it is |
| `AgentSessions.WholeBoot` | boardfarm3/api/session.py:103-129 | a boot of a CONFIGURED session with an idle worker calls the chain once and ends READY if it returns and FAILED if it raises |
| `AgentSessions.ConfigureCompletesIff` | boardfarm3/api/session.py:99-100 | a configure completes, and makes the session CONFIGURED, exactly if its job ended DONE or was cancelled; a cancelled one was never called, and after a raise the state stays |
| `AgentSessions.CancelledConfigureCounts` | boardfarm3/api/execution.py:88-91 | there is a run in which the session reads CONFIGURED although no callable was ever called |
| `AgentSessions.TornPollHidesAFailure` | boardfarm3/api/execution.py:98-99 | there is a run in which the session reads READY without an error although its only boot job raised |
| `AgentSessions.AgentStepKeepsInv` | boardfarm3/api/session.py:66-129 | every step, also of other operations' jobs, keeps what the state says about the jobs |
| `AgentSessions.AgentSession.BeginConfigure` | boardfarm3/api/session.py:95-99 | one job per configure |
| `AgentSessions.AgentSession.EndConfigure` | boardfarm3/api/session.py:99-101 | CONFIGURED unless the job raised |
| `AgentSessions.AgentSession.RequestBoot` | boardfarm3/api/app.py:227-233 | accepted exactly in state CONFIGURED |
| `AgentSessions.AgentSession.BeginBoot` | boardfarm3/api/session.py:108-112 | raises unless still CONFIGURED |
| `AgentSessions.AgentSession.SubmitBoot` | boardfarm3/api/session.py:113-116 | one boot job per boot that got past the check |
| `AgentSessions.AgentSession.PollBoot` | boardfarm3/api/session.py:117-129 | waits on while the job is queued or running, then FAILED with the error if an exception is stored and READY if not |
| `WifiMatching.MergeWithWifiConfig` | boardfarm3/lib/boardfarm_config.py:148-185 | on entries with any JSON values the loops compute the greedy merge, with its errors (too few devices, bands that cannot be compared or looked up, no device for a client) and the empty result for no request |
| `WifiMatching.MergeSucceedsIff` | boardfarm3/lib/boardfarm_config.py:168-182 | with at most one requested band after "dual", the merge succeeds if and only if the bands can be compared and looked up and some injective assignment of clients to compatible devices exists |
| `WifiMatching.CompleteIff` | boardfarm3/lib/boardfarm_config.py:168-173 | over a set of band names that holds for all inventories and requests if and only if at most one name sorts after "dual" |
| `WifiMatching.SecondBandIsStarved` | boardfarm3/lib/boardfarm_config.py:170-182 | the inventory and request that fail for any two names after "dual" |
| `WifiMatching.BandsInUseAlwaysMerge` | boardfarm3/lib/boardfarm_config.py:168-184 | with the bands "2.4 GHz", "5 GHz" and "dual", or "2.4", "5" and "dual", every request that can be served is served |
| `WifiMatching.OrdinaryMerge` | boardfarm3/lib/boardfarm_config.py:168-184 | for devices "dual" and "5" and clients "5" and "2.4", the "2.4" client gets the "dual" device and "5" its own |
| `WifiMatching.GreedyTakesFirst` | boardfarm3/lib/boardfarm_config.py:170-184 | client by client the first device of the sorted list not yet taken that has the client's band or "dual"; the merged entry has the client's fields and the device's where the client has none; a failure names the first client with no such device left |
| `WifiMatching.RefusedIff` | boardfarm3/lib/boardfarm_config.py:158-173 | too few devices exactly if there are fewer than clients; a TypeError exactly if two bands of one list do not compare or a band cannot be looked up |
| `WifiMatching.OrderIsByFirstDifference` | boardfarm3/lib/boardfarm_config.py:168-169 | text compares at its first difference, a beginning before what goes on |
| `WifiMatching.BandsAre` | boardfarm3/lib/boardfarm_config.py:168-173 | the band is the field "band", a missing or null one is no band, and truth values count as numbers |
| `WifiMatching.MergeIsSound` | boardfarm3/lib/boardfarm_config.py:170-185 | on success every requested client is merged exactly once, into a device of its own that fits it |
| `WifiMatching.GreedyIsComplete` | boardfarm3/lib/boardfarm_config.py:170-184 | on sorted lists the first fit is never a wrong choice, if the devices suffice at all |
| `WifiMatching.CoversAssigns` | boardfarm3/lib/boardfarm_config.py:173 | devices suffice whenever the clients left over by their own bands fit the "dual" devices |
| `WifiMatching.AssignmentCovers` | boardfarm3/lib/boardfarm_config.py:173 | and only then |
| `WifiMatching.SortIsOrdered` | boardfarm3/lib/boardfarm_config.py:168-169 | both lists are put in band order, nothing added or lost |
| `WifiMatching.SortIsStable` | boardfarm3/lib/boardfarm_config.py:168-169 | entries of one band are served and taken in the order they are listed |
| `PacketMatching.MatchTrace` | boardfarm3/lib/multicast.py:285-313 | raises exactly if an expected packet is too short for the log message; else there are optional indices, one per expected packet, that never go back: with an index the entry is the captured packet there and agrees with the expected one up to "*", without it is empty; each is the first possible, and if the sequence embeds all are present and no later than in any embedding |
| `PacketMatching.MatchingIs` | boardfarm3/lib/multicast.py:289-293 | packets match unless some field both have differs and is not "*" in the expected one |
| `PacketMatching.CompleteIffEmbeds` | boardfarm3/lib/multicast.py:287-313 | no entry is missing if and only if the expected sequence embeds in the capture; then the matches are the earliest embedding |
| `PacketMatching.StaysAhead` | boardfarm3/lib/multicast.py:288-303 | each chosen index is at most that of any embedding |
| `PacketMatching.NeverGoesBack` | boardfarm3/lib/multicast.py:288-303 | matches are genuine and their indices never decrease, also across misses |
| `PacketMatching.MissMeansAbsent` | boardfarm3/lib/multicast.py:304-312 | a missing entry means that no packet from the last match on would have matched |
| `Backspaces.ApplyBackspace` | boardfarm3/lib/boardfarm_pexpect.py:18-30 | the loop ends, since each round but the last shortens the string, and leaves the fully rewritten string |
| `Backspaces.FirstSubstitutionIs` | boardfarm3/lib/boardfarm_pexpect.py:21-26 | the repeated substitution takes out the leftmost character that is no newline and has an erase behind it, with that erase |
| `Backspaces.FirstSubstitutionEnds` | boardfarm3/lib/boardfarm_pexpect.py:21-27 | and changes nothing if there is none |
| `Backspaces.LastSubstitutionIs` | boardfarm3/lib/boardfarm_pexpect.py:28-29 | the last substitution takes out every erase from the left, and nothing else |
| `Backspaces.LastSubstitutionEnds` | boardfarm3/lib/boardfarm_pexpect.py:28-29 | and changes nothing if there is none |
| `Backspaces.RewritingIs` | boardfarm3/lib/boardfarm_pexpect.py:19-30 | the first is repeated until it changes nothing, then the last is made |
| `Backspaces.BackspaceIsEditor` | boardfarm3/lib/boardfarm_pexpect.py:18-30 | on all text and erases of either form in which no erase goes past the start of its line, the rewriting is the one-pass stack editor |
| `Backspaces.LeadingErasesIff` | boardfarm3/lib/boardfarm_pexpect.py:20-29 | any sequence of leading erases of either form before plain text is cleaned away if and only if it falls into groups of one erase and as many more as it has bytes, with at most one erase over |
| `Backspaces.LeadingOfOneForm` | boardfarm3/lib/boardfarm_pexpect.py:20-29 | for n erases of one form: if and only if n % 4, or n % 5 for the longer form, is at most 1 |
| `Backspaces.TypedCharacterIsLost` | boardfarm3/lib/boardfarm_pexpect.py:20-29 | two leading line erases swallow a typed 'K' |
| `DhcpTraces.ManageDuplicates` | boardfarm3/use_cases/dhcp.py:41-48 | the loop with its counter computes the renamed dictionary |
| `DhcpTraces.LosslessIff` | boardfarm3/use_cases/dhcp.py:41-48 | no pair is lost if and only if no numbered repeat spells another key of the input; then the k-th repeat sits at key_k, in the old order |
| `DhcpTraces.RepeatsAreNumbered` | boardfarm3/use_cases/dhcp.py:44-47 | without a clash the first pair of a key is stored under the key and its k-th repeat, counted over the pairs before it, under the key, an underscore and k |
| `DhcpTraces.LastPairWins` | boardfarm3/use_cases/dhcp.py:46 | with or without a clash a name answers with the last pair stored under it |
| `DhcpTraces.DecimalSpells` | boardfarm3/use_cases/dhcp.py:45 | numbers are written in decimal without a leading zero |
| `DhcpTraces.OptionsAreSpelt` | boardfarm3/use_cases/dhcp.py:201 | an option is looked for under its decimal number |
| `DhcpTraces.GetDhcpOptionDetails` | boardfarm3/use_cases/dhcp.py:180-214 | the loop computes the lookup, with its break, its overriding and its two failures |
| `DhcpTraces.FilterOfRenamed` | boardfarm3/use_cases/dhcp.py:165-177 | selecting the option keys and renaming repeats commute |
| `DhcpTraces.OptionsAre` | boardfarm3/use_cases/dhcp.py:173-177 | a pair is an option exactly if its key contains "dhcp.option.type" |
| `DhcpTraces.OptionRoundTrip` | boardfarm3/use_cases/dhcp.py:197-214 | from a packet that alternates option type and tree, the details of an option are a tree emitted with that option: that of the first repeat, else the plain one; an absent option raises UnboundLocalError |
| `DhcpTraces.OptionOccursOnce` | boardfarm3/use_cases/dhcp.py:197-214 | an option that occurs once is answered with exactly its own tree |
| `DhcpTraces.EarliestRepeatWins` | boardfarm3/use_cases/dhcp.py:199-210 | of several occurrences the earliest one behind the packet's first option is answered |
| `DhcpTraces.OtherwiseThePlainOne` | boardfarm3/use_cases/dhcp.py:199-214 | the packet's first option is answered if it does not occur again; an option that does not occur is an UnboundLocalError |
| `DhcpTraces.MissingTreeFails` | boardfarm3/use_cases/dhcp.py:203-213 | the documented failure is for an option whose tree is missing |
| `DhcpTraces.TwoOptions` | boardfarm3/use_cases/dhcp.py:180-214 | a packet with options 53 and 61 answers each with its own tree |

## Left out

- Reaping: the number of purged containers a pass reports counts loop iterations only; the transition system does not carry it.
- Purging: a purge that raises ends the request or pass with the record still listed; the reaper's outer loop that logs this and waits for the next pass adds nothing.
- Launchers: `ProcessLauncher` forgets an entry before its process has ended, and Docker's timing is the daemon's; only the semantics of `FakeLauncher` are modelled.
- `ControlTheorems.TaskCanEnd`: states that a task can end, not that it must; fairness of the event loop and time limits of requests are not modelled.
- `ControlServers.ControlServer.AgentAccepts`: the deadline and the retries of the health poll are one waiting point that ends in either answer.
- `ControlServers.ControlServer.ReleaseAfterFailedStart`: a start that raises after it has created a container is not modelled.
- Diagnostics: the bundle's content, redaction and which tier produced it; only sizes and the fact of a bundle are kept. Session listing with its state requests, and the proxy, change no modelled state apart from activity times.
- `WifiMatching.MergeWithWifiConfig`: numbers are real numbers, without NaN. A request for no clients against two or more devices whose bands are all arrays may get through the sort; the model answers TypeError. The LAN merge is a zip of two lists.
- `PacketMatching.MatchTrace`: reading the capture files and choosing the protocol version happen before it.
- `Backspaces.BackspaceIsEditor`: text with other escape sequences, or with erases past the start of a line that do not lead the text get no meaning of their own. The logging wrapper around the function is not modelled.
- `DhcpTraces.OptionRoundTrip`: values are text or an opaque tree; splitting DHCPv6 traces is not modelled.
- `ConsoleStreams.ExactlyOnce`: claims completeness for a buffer no longer than the read limit, which the defaults satisfy; for longer ones `Consoles.PageCompleteIff` says when a read is complete. Keepalive comments, disconnection and removal of the subscription are left out.
- `Consoles.CursorPagination`: a start ahead of the head of the log is not claimed, as the code promises nothing there.
- Threads: an append is one step although worker threads append while the loop reads; the thread safety of the deque and of the asyncio queue is not modelled.
- `Executions.OneAtATimeInOrder`: results, timestamps and shutdown of the executor are not modelled.
- `AgentSessions.OutcomesMean`: releasing the session, which shuts the queue down, and the error envelope's content are not modelled.
- Everything else of the repository (device classes, templates, the other use cases, HTTP and plugin plumbing) drives consoles and unseen libraries.
