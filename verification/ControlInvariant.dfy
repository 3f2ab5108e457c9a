/** The inductive invariant of the control plane, kept by every step. */
module ControlInvariant {
  import opened AgentInfos
  import opened ControlPlane
  import opened Launchers
  import opened Leases
  import opened Registries
  import opened Reapers
  import opened Stores
  import opened Wrappers

  /** Every record names a drawn session and its board. */
  ghost predicate RecordsAgree(c: Control) {
    && (forall board :: board in c.leases ==> c.leases[board] in c.boards && c.boards[c.leases[board]] == board)
    && (forall id :: id in c.registry ==>
          id in c.registered && c.registry[id].id == id && id in c.boards && c.registry[id].board == c.boards[id])
    && (forall id :: id in c.containers ==>
          c.containers[id].id == id && id in c.boards && c.containers[id].board == c.boards[id])
    && c.registered <= c.boards.Keys
    && c.store.Keys <= c.boards.Keys
  }

  ghost predicate Owned(c: Control, id: SessionId) {
    id in c.boards && Holds(c, id, c.boards[id])
  }

  /** A running container has its board's lease, unless a stop of it raised or a restart left it out. */
  ghost predicate RunningHolds(c: Control) {
    forall id :: Running(c.containers, id) ==> id in c.stopFailed || id in c.dropped || Owned(c, id)
  }

  /** A session left out by a restart was registered by it, and never gets a lease again. */
  ghost predicate DroppedOwnsNothing(c: Control) {
    forall id :: id in c.dropped ==> id in c.registered && !Owned(c, id)
  }

  /** A session that is no longer live has no running container, unless a stop of it raised. */
  ghost predicate SettledIsStopped(c: Control) {
    forall id :: Running(c.containers, id) && Settled(c, id) ==> id in c.stopFailed
  }

  /** A lease belongs to a live session or to one being created. */
  ghost predicate LeasesJustified(c: Control) {
    forall id :: Owned(c, id) ==> LiveIn(c.registry, id) || BeingCreated(c, id)
  }

  ghost predicate Forgets(c: Control, id: SessionId) {
    exists t :: t in c.tasks && c.tasks[t].Tearing? && c.tasks[t].stage.Forgetting? && c.tasks[t].id == id
  }

  /** A live session not left out holds its board, unless a teardown has freed it and is about to say so. */
  ghost predicate LiveHolds(c: Control) {
    forall id :: LiveIn(c.registry, id) ==> Owned(c, id) || Forgets(c, id) || id in c.dropped
  }

  /** A session that has left the registry has no container. */
  ghost predicate GoneIsGone(c: Control) {
    forall id :: id in c.registered && id !in c.registry ==> id !in c.containers
  }

  ghost predicate Settled(c: Control, id: SessionId) {
    id in c.registered && !LiveIn(c.registry, id)
  }

  ghost predicate StopTook(c: Control, id: SessionId, retain: bool, stopFailed: bool) {
    && (Running(c.containers, id) ==> id in c.stopFailed)
    && (!stopFailed && !retain ==> id !in c.containers)
  }

  ghost predicate TaskInv(c: Control, task: Task) {
    match task
    case Starting(id, board) => CreateInv(c, id, board) && id !in c.containers
    case StartFailed(id, board) => CreateInv(c, id, board) && id !in c.containers
    case Preparing(id, board, _) => CreateInv(c, id, board)
    case Tearing(id, retain, _, stage) =>
      && id in c.registered
      && (stage.Freeing? ==> StopTook(c, id, retain, stage.stopFailed))
      && (stage.Forgetting? ==> StopTook(c, id, retain, stage.stopFailed) && !Owned(c, id))
    case Purging(id, removed) => Settled(c, id) && (removed ==> id !in c.containers)
    case Reaping(pending, removed, _, _) =>
      && pending != []
      && (forall i :: 0 <= i < |pending| ==> pending[i].state.Dead? && Settled(c, pending[i].id))
      && (removed ==> pending[0].id !in c.containers)
    case Capturing(id, _) => id in c.registered
  }

  /** A session being created has its lease, is not registered, and has no recorded death. */
  ghost predicate CreateInv(c: Control, id: SessionId, board: Board) {
    && id in c.boards && c.boards[id] == board && id !in c.registered
    && Holds(c, id, board)
    && EndedAt(c.store, id).None?
  }

  ghost predicate TasksInv(c: Control) {
    && (forall t :: t in c.tasks ==> TaskInv(c, c.tasks[t]))
    && (forall t, u :: t in c.tasks && u in c.tasks && c.tasks[t].IsCreate() && c.tasks[u].IsCreate() && c.tasks[t].id == c.tasks[u].id ==> t == u)
  }

  /** The part of the invariant that speaks of the tables. */
  ghost predicate StateInv(c: Control) {
    && RecordsAgree(c)
    && RunningHolds(c)
    && DroppedOwnsNothing(c)
    && SettledIsStopped(c)
    && LeasesJustified(c)
    && LiveHolds(c)
    && GoneIsGone(c)
  }

  ghost predicate Inv(c: Control) {
    StateInv(c) && TasksInv(c)
  }

  lemma InitialInv()
    ensures Inv(INITIAL)
  {
  }

  /** A step of task t leaves every other task where it was. */
  ghost predicate OnlyTask(c: Control, c': Control, t: TaskId) {
    forall u :: u != t ==> (u in c.tasks <==> u in c'.tasks) && (u in c.tasks ==> c.tasks[u] == c'.tasks[u])
  }

  ghost predicate Creates(c: Control, t: TaskId, id: SessionId) {
    t in c.tasks && c.tasks[t].IsCreate() && c.tasks[t].id == id
  }

  ghost predicate ForgetsIn(c: Control, t: TaskId, id: SessionId) {
    t in c.tasks && c.tasks[t].Tearing? && c.tasks[t].stage.Forgetting? && c.tasks[t].id == id
  }

  lemma OthersGoOn(c: Control, c': Control, t: TaskId)
    requires OnlyTask(c, c', t)
    ensures forall id :: BeingCreated(c, id) ==> Creates(c, t, id) || BeingCreated(c', id)
    ensures forall id :: Forgets(c, id) ==> ForgetsIn(c, t, id) || Forgets(c', id)
    ensures forall id :: Creates(c', t, id) ==> BeingCreated(c', id)
    ensures forall id :: ForgetsIn(c', t, id) ==> Forgets(c', id)
  {
    forall id | BeingCreated(c, id) && !Creates(c, t, id) ensures BeingCreated(c', id) {
      var u :| u in c.tasks && c.tasks[u].IsCreate() && c.tasks[u].id == id;
      assert u in c'.tasks && c'.tasks[u] == c.tasks[u];
    }
    forall id | Forgets(c, id) && !ForgetsIn(c, t, id) ensures Forgets(c', id) {
      var u :| u in c.tasks && c.tasks[u].Tearing? && c.tasks[u].stage.Forgetting? && c.tasks[u].id == id;
      assert u in c'.tasks && c'.tasks[u] == c.tasks[u];
    }
  }

  // ---- changes to one part of the state

  /** Task t gives way to another task, or ends. */
  lemma TaskMoves(c: Control, c': Control, t: TaskId)
    requires Inv(c) && OnlyTask(c, c', t) && c' == c.(tasks := c'.tasks)
    requires t in c'.tasks ==> TaskInv(c, c'.tasks[t])
    requires t in c'.tasks && c'.tasks[t].IsCreate() ==> Creates(c, t, c'.tasks[t].id)
    requires forall id :: Creates(c, t, id) ==> Creates(c', t, id)
    requires forall id :: ForgetsIn(c, t, id) ==> !LiveIn(c.registry, id)
    ensures Inv(c')
  {
    OthersGoOn(c, c', t);
    forall u | u in c'.tasks ensures TaskInv(c', c'.tasks[u]) {
      assert TaskInv(c, c'.tasks[u]);
    }
  }

  lemma StoreChanges(c: Control, store: Contents)
    requires Inv(c) && store.Keys <= c.boards.Keys
    requires forall id :: BeingCreated(c, id) ==> EndedAt(store, id).None?
    ensures Inv(c.(store := store))
  {
    var c' := c.(store := store);
    OthersGoOn(c, c', 0);
    OthersGoOn(c', c, 0);
    forall u | u in c'.tasks ensures TaskInv(c', c'.tasks[u]) {
      assert TaskInv(c, c.tasks[u]);
      if c.tasks[u].IsCreate() {
        assert BeingCreated(c, c.tasks[u].id);
      }
    }
  }

  /** A container stops or disappears; no lease depends on it. */
  lemma ContainerEnds(c: Control, containers: Containers, id: SessionId)
    requires Inv(c) && !Running(containers, id)
    requires containers - {id} == c.containers - {id}
    requires id in containers ==> id in c.containers && containers[id].id == id && containers[id].board == c.containers[id].board
    ensures Inv(c.(containers := containers))
  {
    var c' := c.(containers := containers);
    forall x | x != id ensures (x in c.containers <==> x in containers) && (x in containers ==> containers[x] == c.containers[x]) {
      assert x in c.containers <==> x in c.containers - {id};
      assert x in containers <==> x in containers - {id};
    }
    OthersGoOn(c, c', 0);
    forall u | u in c'.tasks ensures TaskInv(c', c'.tasks[u]) {
      assert TaskInv(c, c.tasks[u]);
    }
  }

  lemma SettlesOnly(before: Sessions, after: Sessions, id: SessionId)
    requires after - {id} == before - {id}
    ensures forall x :: x != id ==> (x in before <==> x in after) && (x in after ==> after[x] == before[x])
  {
    forall x | x != id ensures (x in before <==> x in after) && (x in after ==> after[x] == before[x]) {
      assert x in before <==> x in before - {id};
      assert x in after <==> x in after - {id};
    }
  }

  lemma SettlingKeepsState(c: Control, registry: Sessions, id: SessionId)
    requires StateInv(c) && id in c.registered && !Owned(c, id)
    requires Running(c.containers, id) ==> id in c.stopFailed
    requires registry - {id} == c.registry - {id}
    requires id in registry ==> id in c.registry && registry[id] == c.registry[id].(state := Dead, endedAt := registry[id].endedAt)
    requires id !in registry && id in c.registry ==> id !in c.containers
    ensures StateInv(c.(registry := registry))
  {
    SettlesOnly(c.registry, registry, id);
    OthersGoOn(c, c.(registry := registry), 0);
  }

  /** The registry forgets a session or marks it dead, once its lease is gone. */
  lemma SessionSettles(c: Control, registry: Sessions, id: SessionId)
    requires Inv(c) && id in c.registered && !Owned(c, id)
    requires Running(c.containers, id) ==> id in c.stopFailed
    requires registry - {id} == c.registry - {id}
    requires id in registry ==> id in c.registry && registry[id] == c.registry[id].(state := Dead, endedAt := registry[id].endedAt)
    requires id !in registry && id in c.registry ==> id !in c.containers
    ensures Inv(c.(registry := registry))
  {
    var c' := c.(registry := registry);
    SettlesOnly(c.registry, registry, id);
    SettlingKeepsState(c, registry, id);
    forall u | u in c'.tasks ensures TaskInv(c', c'.tasks[u]) {
      assert TaskInv(c, c.tasks[u]);
    }
  }

  lemma StopFailureNoted(c: Control, id: SessionId)
    requires Inv(c)
    ensures Inv(c.(stopFailed := c.stopFailed + {id}))
  {
    var c' := c.(stopFailed := c.stopFailed + {id});
    OthersGoOn(c, c', 0);
    forall u | u in c'.tasks ensures TaskInv(c', c'.tasks[u]) {
      assert TaskInv(c, c.tasks[u]);
    }
  }

  /** Releasing one session's leases changes who owns a board for no other session. */
  lemma ReleaseIsLocal(c: Control, id: SessionId)
    requires RecordsAgree(c)
    ensures forall other :: other != id ==> (Owned(c.(leases := Released(c.leases, id)), other) <==> Owned(c, other))
    ensures forall other, board :: other != id ==> (Holds(c.(leases := Released(c.leases, id)), other, board) <==> Holds(c, other, board))
    ensures !Owned(c.(leases := Released(c.leases, id)), id)
  {
  }

  // ---- the steps

  lemma CrashKeepsInv(c: Control, id: SessionId, at: Option<Time>)
    requires Inv(c) && Enabled(c, Crash(id, at))
    ensures Inv(Do(c, Crash(id, at)))
  {
    ContainerEnds(c, c.containers[id := c.containers[id].Died(at)], id);
  }

  lemma CreateKeepsTasks(c: Control, t: TaskId, id: SessionId, board: Board)
    requires RecordsAgree(c) && TasksInv(c) && Enabled(c, Create(t, id, board)) && board !in c.leases
    ensures TasksInv(DoCreate(c, t, id, board))
  {
    var c' := DoCreate(c, t, id, board);
    forall u | u in c'.tasks ensures TaskInv(c', c'.tasks[u]) {
      if u != t {
        assert TaskInv(c, c.tasks[u]);
      }
    }
  }

  lemma CreateKeepsState(c: Control, t: TaskId, id: SessionId, board: Board)
    requires StateInv(c) && Enabled(c, Create(t, id, board)) && board !in c.leases
    ensures StateInv(DoCreate(c, t, id, board))
  {
    var c' := DoCreate(c, t, id, board);
    OthersGoOn(c, c', t);
    assert Creates(c', t, id);
    CreateIsLocal(c, t, id, board);
  }

  lemma CreateIsLocal(c: Control, t: TaskId, id: SessionId, board: Board)
    requires RecordsAgree(c) && Enabled(c, Create(t, id, board)) && board !in c.leases
    ensures RecordsAgree(DoCreate(c, t, id, board)) && Owned(DoCreate(c, t, id, board), id)
    ensures forall x :: x != id ==> (Owned(DoCreate(c, t, id, board), x) <==> Owned(c, x))
    ensures !Running(c.containers, id) && id !in c.registered
  {
  }

  lemma CreateKeepsInv(c: Control, t: TaskId, id: SessionId, board: Board)
    requires Inv(c) && Enabled(c, Create(t, id, board))
    ensures Inv(DoCreate(c, t, id, board))
  {
    if board !in c.leases {
      CreateKeepsTasks(c, t, id, board);
      CreateKeepsState(c, t, id, board);
    }
  }

  lemma StartedKeepsTasks(c: Control, t: TaskId, logs: Option<nat>)
    requires Inv(c) && Enabled(c, StartReturns(t, logs))
    ensures TasksInv(DoStartReturns(c, t, c.tasks[t], logs))
  {
    assert TaskInv(c, c.tasks[t]);
    var c' := DoStartReturns(c, t, c.tasks[t], logs);
    forall u | u in c'.tasks ensures TaskInv(c', c'.tasks[u]) {
      assert TaskInv(c, c.tasks[u]);
    }
  }

  lemma StartedKeepsState(c: Control, t: TaskId, logs: Option<nat>)
    requires StateInv(c) && Enabled(c, StartReturns(t, logs)) && TaskInv(c, c.tasks[t])
    ensures StateInv(DoStartReturns(c, t, c.tasks[t], logs))
  {
    var c' := DoStartReturns(c, t, c.tasks[t], logs);
    OthersGoOn(c, c', t);
    assert forall x :: Owned(c', x) <==> Owned(c, x);
  }

  lemma StartReturnsKeepsInv(c: Control, t: TaskId, logs: Option<nat>)
    requires Inv(c) && Enabled(c, StartReturns(t, logs))
    ensures Inv(DoStartReturns(c, t, c.tasks[t], logs))
  {
    assert TaskInv(c, c.tasks[t]);
    StartedKeepsTasks(c, t, logs);
    StartedKeepsState(c, t, logs);
  }

  lemma FreeAfterFailedStartKeepsInv(c: Control, t: TaskId)
    requires Inv(c) && Enabled(c, FreeAfterFailedStart(t))
    ensures Inv(Do(c, FreeAfterFailedStart(t)))
  {
    var c' := Do(c, FreeAfterFailedStart(t));
    assert TaskInv(c, c.tasks[t]);
    ReleaseIsLocal(c, c.tasks[t].id);
    OthersGoOn(c, c', t);
    forall u | u in c'.tasks ensures TaskInv(c', c'.tasks[u]) {
      assert TaskInv(c, c.tasks[u]);
    }
  }

  /** What registering the session of a create task, which becomes a teardown or ends, leaves behind. */
  ghost predicate Registers(c: Control, c': Control, t: TaskId, id: SessionId, board: Board) {
    && t in c.tasks && c.tasks[t].Preparing? && c.tasks[t].id == id && c.tasks[t].board == board
    && c' == Register(c, AgentInfo.Fresh(id, board)).(tasks := c'.tasks) && OnlyTask(c, c', t)
    && (t in c'.tasks ==> c'.tasks[t].Tearing? && c'.tasks[t].id == id && c'.tasks[t].stage == Archiving)
  }

  lemma RegistrationKeepsTasks(c: Control, c': Control, t: TaskId, id: SessionId, board: Board)
    requires Inv(c) && Registers(c, c', t, id, board)
    ensures TasksInv(c')
  {
    assert TaskInv(c, c.tasks[t]);
    forall u | u in c'.tasks ensures TaskInv(c', c'.tasks[u]) {
      if u != t {
        assert TaskInv(c, c.tasks[u]);
      }
    }
  }

  lemma RegistrationKeepsState(c: Control, c': Control, t: TaskId, id: SessionId, board: Board)
    requires StateInv(c) && Registers(c, c', t, id, board) && TaskInv(c, c.tasks[t])
    ensures StateInv(c')
  {
    OthersGoOn(c, c', t);
    assert forall x :: Owned(c', x) <==> Owned(c, x);
  }

  lemma RegistrationKeepsInv(c: Control, c': Control, t: TaskId, id: SessionId, board: Board)
    requires Inv(c) && Registers(c, c', t, id, board)
    ensures Inv(c')
  {
    assert TaskInv(c, c.tasks[t]);
    RegistrationKeepsTasks(c, c', t, id, board);
    RegistrationKeepsState(c, c', t, id, board);
  }

  lemma AgentAnswersKeepsInv(c: Control, t: TaskId)
    requires Inv(c) && Enabled(c, AgentAnswers(t))
    ensures Inv(DoAgentAnswers(c, t, c.tasks[t]))
  {
    assert TaskInv(c, c.tasks[t]);
    if c.tasks[t].phase.Booting? {
      RegistrationKeepsInv(c, DoAgentAnswers(c, t, c.tasks[t]), t, c.tasks[t].id, c.tasks[t].board);
    } else {
      TaskMoves(c, DoAgentAnswers(c, t, c.tasks[t]), t);
    }
  }

  lemma AgentFailsKeepsInv(c: Control, t: TaskId)
    requires Inv(c) && Enabled(c, AgentFails(t))
    ensures Inv(DoAgentFails(c, t, c.tasks[t]))
  {
    RegistrationKeepsInv(c, DoAgentFails(c, t, c.tasks[t]), t, c.tasks[t].id, c.tasks[t].board);
  }

  /** No session being created is registered, so archiving a registered one records no early death. */
  lemma RegisteredIsNotBeingCreated(c: Control, id: SessionId)
    requires Inv(c) && id in c.registered
    ensures !BeingCreated(c, id)
  {
    forall t | t in c.tasks && c.tasks[t].IsCreate() ensures c.tasks[t].id != id {
      assert TaskInv(c, c.tasks[t]);
    }
  }

  lemma CreatedHasNoDeath(c: Control)
    requires Inv(c)
    ensures forall id :: BeingCreated(c, id) ==> EndedAt(c.store, id).None?
  {
    forall id | BeingCreated(c, id) ensures EndedAt(c.store, id).None? {
      var t :| t in c.tasks && c.tasks[t].IsCreate() && c.tasks[t].id == id;
      assert TaskInv(c, c.tasks[t]);
    }
  }

  lemma WritingKeepsInv(c: Control, store: Contents, id: SessionId)
    requires Inv(c) && id in c.registered && store - {id} == c.store - {id}
    ensures Inv(c.(store := store))
  {
    CreatedHasNoDeath(c);
    RegisteredIsNotBeingCreated(c, id);
    forall x | x != id ensures EndedAt(store, x) == EndedAt(c.store, x) && (x in store ==> x in c.store) {
      assert x in c.store <==> x in c.store - {id};
      assert x in store <==> x in store - {id};
    }
    StoreChanges(c, store);
  }

  lemma ArchiveEndsKeepsInv(c: Control, t: TaskId, bundle: Option<nat>, metaBytes: nat)
    requires Inv(c) && Enabled(c, ArchiveEnds(t, bundle, metaBytes))
    ensures Inv(DoArchiveEnds(c, t, c.tasks[t], bundle, metaBytes))
  {
    assert TaskInv(c, c.tasks[t]);
    var c' := DoArchiveEnds(c, t, c.tasks[t], bundle, metaBytes);
    WritingKeepsInv(c, c'.store, c.tasks[t].id);
    TaskMoves(c.(store := c'.store), c', t);
  }

  lemma DevicesReleasedKeepsInv(c: Control, t: TaskId)
    requires Inv(c) && Enabled(c, DevicesReleased(t))
    ensures Inv(Do(c, DevicesReleased(t)))
  {
    assert TaskInv(c, c.tasks[t]);
    TaskMoves(c, Do(c, DevicesReleased(t)), t);
  }

  lemma StopReturnsKeepsInv(c: Control, t: TaskId)
    requires Inv(c) && Enabled(c, StopReturns(t))
    ensures Inv(DoStopReturns(c, t, c.tasks[t]))
  {
    assert TaskInv(c, c.tasks[t]);
    var c' := DoStopReturns(c, t, c.tasks[t]);
    ContainerEnds(c, c'.containers, c.tasks[t].id);
    TaskMoves(c.(containers := c'.containers), c', t);
  }

  lemma StopRaisesKeepsInv(c: Control, t: TaskId)
    requires Inv(c) && Enabled(c, StopRaises(t))
    ensures Inv(DoStopRaises(c, t, c.tasks[t]))
  {
    assert TaskInv(c, c.tasks[t]);
    StopFailureNoted(c, c.tasks[t].id);
    TaskMoves(c.(stopFailed := c.stopFailed + {c.tasks[t].id}), DoStopRaises(c, t, c.tasks[t]), t);
  }

  lemma LeaseFreedKeepsTasks(c: Control, t: TaskId)
    requires Inv(c) && Enabled(c, LeaseFreed(t))
    ensures TasksInv(DoLeaseFreed(c, t, c.tasks[t]))
  {
    var c' := DoLeaseFreed(c, t, c.tasks[t]);
    assert TaskInv(c, c.tasks[t]);
    ReleaseIsLocal(c, c.tasks[t].id);
    forall u | u in c'.tasks ensures TaskInv(c', c'.tasks[u]) {
      assert TaskInv(c, c.tasks[u]);
    }
  }

  lemma LeaseFreedKeepsState(c: Control, t: TaskId)
    requires StateInv(c) && Enabled(c, LeaseFreed(t)) && TaskInv(c, c.tasks[t])
    ensures StateInv(DoLeaseFreed(c, t, c.tasks[t]))
  {
    var c' := DoLeaseFreed(c, t, c.tasks[t]);
    ReleaseIsLocal(c, c.tasks[t].id);
    OthersGoOn(c, c', t);
    assert ForgetsIn(c', t, c.tasks[t].id);
  }

  lemma LeaseFreedKeepsInv(c: Control, t: TaskId)
    requires Inv(c) && Enabled(c, LeaseFreed(t))
    ensures Inv(DoLeaseFreed(c, t, c.tasks[t]))
  {
    assert TaskInv(c, c.tasks[t]);
    LeaseFreedKeepsTasks(c, t);
    LeaseFreedKeepsState(c, t);
  }

  lemma SessionForgottenKeepsInv(c: Control, t: TaskId)
    requires Inv(c) && Enabled(c, SessionForgotten(t))
    ensures Inv(DoSessionForgotten(c, t, c.tasks[t]))
  {
    assert TaskInv(c, c.tasks[t]);
    var c' := DoSessionForgotten(c, t, c.tasks[t]);
    SessionSettles(c, c'.registry, c.tasks[t].id);
    TaskMoves(c.(registry := c'.registry), c', t);
  }

  lemma DeleteKeepsInv(c: Control, t: TaskId, id: SessionId, retain: bool, purge: bool)
    requires Inv(c) && Enabled(c, Delete(t, id, retain, purge))
    ensures Inv(DoDelete(c, t, id, retain, purge))
  {
    if id in c.registry && c.registry[id].state.Live? {
      TaskMoves(c, Go(c, t, Tearing(id, retain, c.clock, Archiving)), t);
    } else if id in c.registry {
      TaskMoves(c, Go(c, t, Purging(id, false)), t);
    }
  }

  lemma PurgeReturnsKeepsInv(c: Control, t: TaskId)
    requires Inv(c) && Enabled(c, PurgeReturns(t))
    ensures Inv(DoPurgeReturns(c, t, c.tasks[t]))
  {
    assert TaskInv(c, c.tasks[t]);
    var c' := DoPurgeReturns(c, t, c.tasks[t]);
    ContainerEnds(c, c'.containers, c.tasks[t].id);
    TaskMoves(c.(containers := c'.containers), c', t);
  }

  lemma SettledOwnsNothing(c: Control, id: SessionId)
    requires Inv(c) && Settled(c, id)
    ensures !Owned(c, id)
  {
    RegisteredIsNotBeingCreated(c, id);
  }

  lemma PurgeCompletesKeepsInv(c: Control, t: TaskId)
    requires Inv(c) && Enabled(c, PurgeCompletes(t))
    ensures Inv(DoPurgeCompletes(c, t, c.tasks[t]))
  {
    var id := c.tasks[t].id;
    assert TaskInv(c, c.tasks[t]);
    SettledOwnsNothing(c, id);
    var c' := DoPurgeCompletes(c, t, c.tasks[t]);
    WritingKeepsInv(c, c'.store, id);
    var stored := c.(store := c'.store);
    SessionSettles(stored, c'.registry, id);
    TaskMoves(stored.(registry := c'.registry), c', t);
  }

  lemma TaskEndsKeepsInv(c: Control, t: TaskId)
    requires Inv(c) && t in c.tasks && (c.tasks[t].Purging? || c.tasks[t].Reaping? || c.tasks[t].Capturing?)
    ensures Inv(Finish(c, t))
  {
    TaskMoves(c, Finish(c, t), t);
  }

  lemma StartRaisesKeepsInv(c: Control, t: TaskId)
    requires Inv(c) && Enabled(c, StartRaises(t))
    ensures Inv(Do(c, StartRaises(t)))
  {
    assert TaskInv(c, c.tasks[t]);
    TaskMoves(c, Do(c, StartRaises(t)), t);
  }

  lemma CaptureEndsKeepsInv(c: Control, t: TaskId, bundle: Option<nat>, metaBytes: nat)
    requires Inv(c) && Enabled(c, CaptureEnds(t, bundle, metaBytes))
    ensures Inv(DoCaptureEnds(c, t, c.tasks[t], bundle, metaBytes))
  {
    assert TaskInv(c, c.tasks[t]);
    var c' := DoCaptureEnds(c, t, c.tasks[t], bundle, metaBytes);
    WritingKeepsInv(c, c'.store, c.tasks[t].id);
    TaskEndsKeepsInv(c.(store := c'.store), t);
  }

  // ---- the reaper's steps

  lemma {:induction false} DoomedAreDead(page: seq<AgentInfo>, now: Time, ttl: Time)
    ensures forall info :: info in Doomed(page, now, ttl) ==> info in page && info.state.Dead?
  {
    if page != [] {
      DoomedAreDead(page[..|page| - 1], now, ttl);
    }
  }

  /** A sweep deletes only what is reapable, which no live session and no session being created is. */
  lemma PassKeepsInv(c: Control, left: Contents)
    requires Inv(c) && PassDeletes(c.store, left, c.registry)
    ensures Inv(c.(store := left))
  {
    CreatedHasNoDeath(c);
    StoreChanges(c, left);
  }

  lemma ReapOnKeepsInv(c: Control, t: TaskId, pending: seq<AgentInfo>, now: Time, limits: Limits, left: Contents)
    requires Inv(c) && (pending == [] ==> PassOutcome(c.store, left, c.registry, now, limits))
    requires forall i :: 0 <= i < |pending| ==> pending[i].state.Dead? && Settled(c, pending[i].id)
    requires t in c.tasks ==> c.tasks[t].Reaping?
    ensures Inv(DoReapOn(c, t, pending, now, limits, left))
  {
    var c' := DoReapOn(c, t, pending, now, limits, left);
    if pending == [] {
      PassKeepsInv(c, left);
      TaskMoves(c.(store := left), c', t);
    } else {
      TaskMoves(c, c', t);
    }
  }

  lemma ReapBeginsKeepsInv(c: Control, t: TaskId, page: seq<AgentInfo>, limits: Limits, left: Contents)
    requires Inv(c) && Enabled(c, ReapBegins(t, page, limits, left))
    ensures Inv(Do(c, ReapBegins(t, page, limits, left)))
  {
    var pending := Doomed(page, c.clock, limits.corpseTtl);
    DoomedAreDead(page, c.clock, limits.corpseTtl);
    forall i | 0 <= i < |pending| ensures pending[i].state.Dead? && Settled(c, pending[i].id) {
      assert pending[i] in pending;
    }
    ReapOnKeepsInv(c, t, pending, c.clock, limits, left);
  }

  lemma ReapPurgeReturnsKeepsInv(c: Control, t: TaskId)
    requires Inv(c) && Enabled(c, ReapPurgeReturns(t))
    ensures Inv(DoReapPurgeReturns(c, t, c.tasks[t]))
  {
    assert TaskInv(c, c.tasks[t]);
    var c' := DoReapPurgeReturns(c, t, c.tasks[t]);
    ContainerEnds(c, c'.containers, c.tasks[t].pending[0].id);
    TaskMoves(c.(containers := c'.containers), c', t);
  }

  lemma ReapAdvancesKeepsInv(c: Control, t: TaskId, left: Contents)
    requires Inv(c) && Enabled(c, ReapAdvances(t, left))
    ensures Inv(DoReapAdvances(c, t, c.tasks[t], left))
  {
    var task := c.tasks[t];
    assert TaskInv(c, task);
    var id := task.pending[0].id;
    SettledOwnsNothing(c, id);
    SessionSettles(c, Removed(c.registry, id), id);
    var c' := c.(registry := Removed(c.registry, id));
    ReapOnKeepsInv(c', t, task.pending[1..], task.now, task.limits, left);
  }

  // ---- startup

  lemma {:induction false} LiveOnesAre(listing: seq<AgentInfo>)
    ensures forall info :: info in LiveOnes(listing) <==> info in listing && info.state.Live?
    ensures DistinctIds(listing) ==> DistinctIds(LiveOnes(listing))
  {
    if listing != [] {
      var n := |listing| - 1;
      LiveOnesAre(listing[..n]);
      assert listing == listing[..n] + [listing[n]];
      if DistinctIds(listing) && listing[n].state.Live? {
        forall i | 0 <= i < |LiveOnes(listing[..n])| ensures LiveOnes(listing[..n])[i].id != listing[n].id {
          assert LiveOnes(listing[..n])[i] in LiveOnes(listing[..n]);
        }
      }
    }
  }

  lemma LiveBoardsDistinctIff(c: Control, listing: seq<AgentInfo>)
    requires Lists(listing, c.containers) && forall id :: id in c.containers ==> c.containers[id].id == id
    ensures DistinctIds(LiveOnes(listing))
    ensures DistinctBoards(LiveOnes(listing)) <==> RunningBoardsDistinct(c)
  {
    var live := LiveOnes(listing);
    LiveOnesAre(listing);
    assert forall i :: 0 <= i < |live| ==> live[i] in live;
    assert forall id :: Running(c.containers, id) ==> c.containers[id] in live;
    if RunningBoardsDistinct(c) {
      forall i, j | 0 <= i < j < |live| ensures live[i].board != live[j].board {
        assert Running(c.containers, live[i].id) && Running(c.containers, live[j].id);
      }
    }
  }

  lemma LiveOnesRun(c: Control, listing: seq<AgentInfo>, i: nat)
    requires Lists(listing, c.containers) && i < |LiveOnes(listing)|
    ensures Running(c.containers, LiveOnes(listing)[i].id) && c.containers[LiveOnes(listing)[i].id] == LiveOnes(listing)[i]
  {
    LiveOnesAre(listing);
    assert LiveOnes(listing)[i] in LiveOnes(listing);
  }

  /** After a restart, a running container has its board's lease exactly when running boards were distinct. */
  lemma RestartExact(c: Control, listing: seq<AgentInfo>)
    requires Inv(c) && Enabled(c, Restart(listing))
    ensures (forall id :: Running(c.containers, id) ==> Owned(DoRestart(c, listing), id)) <==> RunningBoardsDistinct(c)
  {
    var live, c' := LiveOnes(listing), DoRestart(c, listing);
    LiveBoardsDistinctIff(c, listing);
    RebuildDropsNothingIff(live);
    if RunningBoardsDistinct(c) {
      LiveOnesAre(listing);
      forall id | Running(c.containers, id) ensures Owned(c', id) {
        assert c.containers[id] in live;
      }
    } else {
      var i :| 0 <= i < |live| && !(live[i].board in c'.leases && c'.leases[live[i].board] == live[i].id);
      LiveOnesRun(c, listing, i);
      assert !Owned(c', live[i].id);
    }
  }

  /** Whatever the listing, a rebuilt lease belongs to a running container of that board: no corpse gets one. */
  lemma RestartLeasesRunning(c: Control, listing: seq<AgentInfo>, board: Board)
    requires Enabled(c, Restart(listing)) && board in DoRestart(c, listing).leases
    ensures var id := DoRestart(c, listing).leases[board]; Running(c.containers, id) && c.containers[id].board == board
  {
    var live := LiveOnes(listing);
    LiveOnesAre(listing);
    RebuiltLeaseIsListed(live, board);
    var i :| 0 <= i < |live| && live[i].board == board && live[i].id == RebuiltFrom(live)[board];
    assert live[i] in live;
  }

  /** A restart leaves out a running session exactly when running boards were not distinct. */
  lemma RestartDropsNothingIff(c: Control, listing: seq<AgentInfo>)
    requires Inv(c) && Enabled(c, Restart(listing))
    ensures DoRestart(c, listing).dropped == {} <==> RunningBoardsDistinct(c)
    ensures forall id :: id in DoRestart(c, listing).dropped <==> Running(c.containers, id) && !Owned(DoRestart(c, listing), id)
  {
    RestartExact(c, listing);
    var c' := DoRestart(c, listing);
    assert forall id :: id in c'.dropped <==> Running(c.containers, id) && !Owned(c', id);
    if RunningBoardsDistinct(c) {
      assert forall id :: id !in c'.dropped;
    } else {
      var id :| Running(c.containers, id) && !Owned(c', id);
      assert id in c'.dropped;
    }
  }

  /** Every restart re-establishes the invariant: what it cannot lease to a running session it notes as left out. */
  lemma RestartKeepsInv(c: Control, listing: seq<AgentInfo>)
    requires Inv(c) && Enabled(c, Restart(listing))
    ensures Inv(DoRestart(c, listing))
  {
    RestartDropsNothingIff(c, listing);
    forall board | board in DoRestart(c, listing).leases
      ensures var id := DoRestart(c, listing).leases[board]; Running(c.containers, id) && c.containers[id].board == board
    {
      RestartLeasesRunning(c, listing, board);
    }
  }

  predicate IsCreateStep(a: Action) {
    a.Create? || a.StartReturns? || a.StartRaises? || a.FreeAfterFailedStart? || a.AgentAnswers? || a.AgentFails?
  }

  predicate IsTeardownStep(a: Action) {
    a.ArchiveEnds? || a.DevicesReleased? || a.StopReturns? || a.StopRaises? || a.LeaseFreed? || a.SessionForgotten?
  }

  /** The steps of create_session and teardown_session. */
  predicate IsSessionStep(a: Action) {
    IsCreateStep(a) || IsTeardownStep(a)
  }

  lemma CreateStepKeepsInv(c: Control, a: Action)
    requires Inv(c) && Enabled(c, a) && IsCreateStep(a)
    ensures Inv(Do(c, a))
  {
    match a
    case Create(t, id, board) => CreateKeepsInv(c, t, id, board);
    case StartReturns(t, logs) => StartReturnsKeepsInv(c, t, logs);
    case StartRaises(t) => StartRaisesKeepsInv(c, t);
    case FreeAfterFailedStart(t) => FreeAfterFailedStartKeepsInv(c, t);
    case AgentAnswers(t) => AgentAnswersKeepsInv(c, t);
    case AgentFails(t) => AgentFailsKeepsInv(c, t);
  }

  lemma TeardownStepKeepsInv(c: Control, a: Action)
    requires Inv(c) && Enabled(c, a) && IsTeardownStep(a)
    ensures Inv(Do(c, a))
  {
    match a
    case ArchiveEnds(t, bundle, metaBytes) => ArchiveEndsKeepsInv(c, t, bundle, metaBytes);
    case DevicesReleased(t) => DevicesReleasedKeepsInv(c, t);
    case StopReturns(t) => StopReturnsKeepsInv(c, t);
    case StopRaises(t) => StopRaisesKeepsInv(c, t);
    case LeaseFreed(t) => LeaseFreedKeepsInv(c, t);
    case SessionForgotten(t) => SessionForgottenKeepsInv(c, t);
  }

  lemma OtherStepKeepsInv(c: Control, a: Action)
    requires Inv(c) && Enabled(c, a) && !IsSessionStep(a) && !a.Restart?
    ensures Inv(Do(c, a))
  {
    match a
    case Tick(now) => TickKeepsInv(c, now);
    case Crash(id, at) => CrashKeepsInv(c, id, at);
    case Delete(t, id, retain, purge) => DeleteKeepsInv(c, t, id, retain, purge);
    case PurgeReturns(t) => PurgeReturnsKeepsInv(c, t);
    case PurgeRaises(t) => TaskEndsKeepsInv(c, t);
    case PurgeCompletes(t) => PurgeCompletesKeepsInv(c, t);
    case ReapBegins(t, page, limits, left) => ReapBeginsKeepsInv(c, t, page, limits, left);
    case ReapPurgeReturns(t) => ReapPurgeReturnsKeepsInv(c, t);
    case ReapPurgeRaises(t) => TaskEndsKeepsInv(c, t);
    case ReapAdvances(t, left) => ReapAdvancesKeepsInv(c, t, left);
    case Capture(t, id, writesMeta) => CaptureKeepsInv(c, t, id, writesMeta);
    case CaptureEnds(t, bundle, metaBytes) => CaptureEndsKeepsInv(c, t, bundle, metaBytes);
  }

  /** Every step of every handler keeps the invariant, and so does every restart. */
  lemma StepKeepsInv(c: Control, a: Action)
    requires Inv(c) && Enabled(c, a)
    ensures Inv(Do(c, a))
  {
    if a.Restart? {
      RestartKeepsInv(c, a.listing);
    } else if IsCreateStep(a) {
      CreateStepKeepsInv(c, a);
    } else if IsTeardownStep(a) {
      TeardownStepKeepsInv(c, a);
    } else {
      OtherStepKeepsInv(c, a);
    }
  }

  lemma CaptureKeepsInv(c: Control, t: TaskId, id: SessionId, writesMeta: bool)
    requires Inv(c) && Enabled(c, Capture(t, id, writesMeta))
    ensures Inv(Do(c, Capture(t, id, writesMeta)))
  {
    TaskMoves(c, Do(c, Capture(t, id, writesMeta)), t);
  }

  lemma TickKeepsInv(c: Control, now: Time)
    requires Inv(c)
    ensures Inv(c.(clock := now))
  {
    var c' := c.(clock := now);
    OthersGoOn(c, c', 0);
    forall u | u in c'.tasks ensures TaskInv(c', c'.tasks[u]) {
      assert TaskInv(c, c.tasks[u]);
    }
  }

  lemma {:induction false} RunKeepsInv(c: Control, run: seq<Action>)
    requires Inv(c) && Feasible(c, run)
    ensures Inv(Exec(c, run))
    decreases |run|
  {
    if run != [] {
      StepKeepsInv(c, run[0]);
      RunKeepsInv(Do(c, run[0]), run[1..]);
    }
  }

  lemma ReachableInv(c: Control)
    requires Reachable(c)
    ensures Inv(c)
  {
    var run :| Feasible(INITIAL, run) && Exec(INITIAL, run) == c;
    InitialInv();
    RunKeepsInv(INITIAL, run);
  }
}
