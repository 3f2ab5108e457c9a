/** What one request leaves behind, told by its own steps and by the flags it came with. */
module ControlOutcomes {
  import opened AgentInfos
  import opened ControlInvariant
  import opened ControlPlane
  import opened ControlTheorems
  import opened Launchers
  import opened Leases
  import opened Registries
  import opened Reapers
  import opened Stores
  import opened Wrappers

  // ---- runs of a few steps

  lemma OneStep(c: Control, a: Action)
    requires Enabled(c, a)
    ensures Feasible(c, [a]) && Exec(c, [a]) == Do(c, a)
  {
    assert Feasible(Do(c, a), []);
    RunStarts(c, a, []);
    assert [a] + [] == [a];
  }

  lemma TwoSteps(c: Control, a: Action, b: Action)
    requires Enabled(c, a) && Enabled(Do(c, a), b)
    ensures Feasible(c, [a, b]) && Exec(c, [a, b]) == Do(Do(c, a), b)
  {
    OneStep(Do(c, a), b);
    RunStarts(c, a, [b]);
    assert [a] + [b] == [a, b];
  }

  lemma ThreeSteps(c: Control, a: Action, b: Action, d: Action)
    requires Enabled(c, a) && Enabled(Do(c, a), b) && Enabled(Do(Do(c, a), b), d)
    ensures Feasible(c, [a, b, d]) && Exec(c, [a, b, d]) == Do(Do(Do(c, a), b), d)
  {
    TwoSteps(Do(c, a), b, d);
    RunStarts(c, a, [b, d]);
    assert [a] + [b, d] == [a, b, d];
  }

  // ---- a teardown

  /** Archive, release the devices, stop, free the board, forget the session. */
  function TeardownSteps(t: TaskId, bundle: Option<nat>, metaBytes: nat, raises: bool): seq<Action> {
    [ArchiveEnds(t, bundle, metaBytes), DevicesReleased(t), if raises then StopRaises(t) else StopReturns(t),
     LeaseFreed(t), SessionForgotten(t)]
  }

  /** The tables after a teardown that nothing interleaves with. */
  ghost predicate TornDown(c: Control, e: Control, task: Task, bundle: Option<nat>, metaBytes: nat, raises: bool)
    requires task.Tearing?
  {
    && e.leases == Released(c.leases, task.id)
    && e.registry == (if task.retain || raises then MarkedDead(c.registry, task.id, task.endedAt) else Removed(c.registry, task.id))
    && e.containers == (if raises then c.containers else Stopped(c.containers, task.id, !task.retain, c.clock))
    && e.store == Archived(c.store, task.id, bundle, Meta(Some(task.endedAt), metaBytes))
    && e.registered == c.registered
  }

  lemma ArchivedAndReleased(c: Control, t: TaskId, bundle: Option<nat>, metaBytes: nat)
    requires Waits(c, t, Archiving)
    ensures Feasible(c, [ArchiveEnds(t, bundle, metaBytes), DevicesReleased(t)])
    ensures Exec(c, [ArchiveEnds(t, bundle, metaBytes), DevicesReleased(t)])
            == Go(c.(store := Archived(c.store, c.tasks[t].id, bundle, Meta(Some(c.tasks[t].endedAt), metaBytes))),
                  t, c.tasks[t].(stage := Stopping))
  {
    var task, store := c.tasks[t], Archived(c.store, c.tasks[t].id, bundle, Meta(Some(c.tasks[t].endedAt), metaBytes));
    var c1 := Go(c.(store := store), t, task.(stage := ReleasingDevices));
    ArchivedNext(c, t, bundle, metaBytes);
    ReleasedNext(c1, t);
    TwoSteps(c, ArchiveEnds(t, bundle, metaBytes), DevicesReleased(t));
    GoesOn(c.(store := store), t, task.(stage := ReleasingDevices), task.(stage := Stopping));
  }

  lemma GoesOn(c: Control, t: TaskId, first: Task, second: Task)
    ensures Go(Go(c, t, first), t, second) == Go(c, t, second)
  {
    assert c.tasks[t := first][t := second] == c.tasks[t := second];
  }

  lemma ArchivedNext(c: Control, t: TaskId, bundle: Option<nat>, metaBytes: nat)
    requires Waits(c, t, Archiving)
    ensures Do(c, ArchiveEnds(t, bundle, metaBytes))
            == Go(c.(store := Archived(c.store, c.tasks[t].id, bundle, Meta(Some(c.tasks[t].endedAt), metaBytes))),
                  t, c.tasks[t].(stage := ReleasingDevices))
  {
  }

  lemma ReleasedNext(c: Control, t: TaskId)
    requires Waits(c, t, ReleasingDevices)
    ensures Do(c, DevicesReleased(t)) == Go(c, t, c.tasks[t].(stage := Stopping))
  {
  }

  lemma StoppedFreedForgotten(c: Control, t: TaskId, raises: bool)
    requires Waits(c, t, Stopping)
    ensures var run := [if raises then StopRaises(t) else StopReturns(t), LeaseFreed(t), SessionForgotten(t)];
            && Feasible(c, run)
            && var e, task := Exec(c, run), c.tasks[t];
               && e.leases == Released(c.leases, task.id) && e.store == c.store && e.registered == c.registered
               && e.registry == (if task.retain || raises then MarkedDead(c.registry, task.id, task.endedAt) else Removed(c.registry, task.id))
               && e.containers == (if raises then c.containers else Stopped(c.containers, task.id, !task.retain, c.clock))
  {
    var stop := if raises then StopRaises(t) else StopReturns(t);
    var c1 := Do(c, stop);
    assert c1.tasks[t] == c.tasks[t].(stage := Freeing(raises));
    var c2 := Do(c1, LeaseFreed(t));
    assert c2.tasks[t] == c.tasks[t].(stage := Forgetting(raises));
    ThreeSteps(c, stop, LeaseFreed(t), SessionForgotten(t));
  }

  lemma TeardownEnds(c: Control, t: TaskId, bundle: Option<nat>, metaBytes: nat, raises: bool)
    requires Waits(c, t, Archiving)
    ensures Feasible(c, TeardownSteps(t, bundle, metaBytes, raises))
    ensures TornDown(c, Exec(c, TeardownSteps(t, bundle, metaBytes, raises)), c.tasks[t], bundle, metaBytes, raises)
  {
    var first := [ArchiveEnds(t, bundle, metaBytes), DevicesReleased(t)];
    var last := [if raises then StopRaises(t) else StopReturns(t), LeaseFreed(t), SessionForgotten(t)];
    ArchivedAndReleased(c, t, bundle, metaBytes);
    StoppedFreedForgotten(Exec(c, first), t, raises);
    RunsCompose(c, first, last);
    assert first + last == TeardownSteps(t, bundle, metaBytes, raises);
  }

  // ---- DELETE of a live session

  /** Whoever else is registered, runs, is stored or holds a board is as before. */
  ghost predicate OthersSame(c: Control, e: Control, id: SessionId) {
    && (forall other :: other != id ==> SameAt(c, e, other))
    && (forall other, board :: other != id ==> (Holds(e, other, board) <==> Holds(c, other, board)))
  }

  /** A dead session's record: dead since the given time, on its old board. */
  predicate DeadSince(sessions: Sessions, id: SessionId, board: Board, at: Time) {
    id in sessions && sessions[id].state.Dead? && sessions[id].endedAt == Some(at) && sessions[id].board == board && sessions[id].id == id
  }

  /** The archive of a session that ended at the given time. */
  predicate ArchivedSince(before: Contents, after: Contents, id: SessionId, at: Time, bundle: Option<nat>, metaBytes: nat) {
    && id in after && after[id].meta == Some(Meta(Some(at), metaBytes))
    && (if bundle.Some? then after[id].bundle == bundle else after[id].bundle == (if id in before then before[id].bundle else None))
    && after[id].other == (if id in before then before[id].other else 0)
  }

  lemma TornDownLeaves(c: Control, e: Control, task: Task, bundle: Option<nat>, metaBytes: nat, raises: bool)
    requires RecordsAgree(c) && task.Tearing? && task.id in c.registry
    requires TornDown(c, e, task, bundle, metaBytes, raises)
    ensures !task.retain && !raises ==> task.id !in e.registry && task.id !in e.containers
    ensures task.retain || raises ==> DeadSince(e.registry, task.id, c.registry[task.id].board, task.endedAt)
    ensures task.retain && !raises && task.id in c.containers ==> DeadSince(e.containers, task.id, c.registry[task.id].board, c.clock)
    ensures raises ==> e.containers == c.containers
    ensures ArchivedSince(c.store, e.store, task.id, task.endedAt, bundle, metaBytes)
    ensures forall board :: !Holds(e, task.id, board)
    ensures OthersSame(c, e, task.id)
  {
  }

  /**
   * A DELETE of a live session that runs to its end.  If the stop returns, the session is gone from
   * registry and launcher without retain, and with retain is listed as dead since the DELETE, its
   * container kept and not running; if the stop raises, it is listed as dead either way.  Its
   * diagnostics are archived, its board is free, and nobody else is touched.
   */
  lemma DeleteLeaves(c: Control, t: TaskId, id: SessionId, retain: bool, purge: bool, bundle: Option<nat>, metaBytes: nat, raises: bool)
    requires Reachable(c) && t !in c.tasks && id in c.registry && c.registry[id].state.Live? && !(retain && purge)
    ensures var run := [Delete(t, id, retain, purge), ArchiveEnds(t, bundle, metaBytes), DevicesReleased(t),
                        if raises then StopRaises(t) else StopReturns(t), LeaseFreed(t), SessionForgotten(t)];
            && Feasible(c, run)
            && var e, board := Exec(c, run), c.registry[id].board;
               && (!retain && !raises ==> id !in e.registry && id !in e.containers)
               && (retain || raises ==> DeadSince(e.registry, id, board, c.clock))
               && (retain && !raises && id in c.containers ==> DeadSince(e.containers, id, board, c.clock))
               && (raises ==> e.containers == c.containers)
               && ArchivedSince(c.store, e.store, id, c.clock, bundle, metaBytes)
               && (forall b :: !Holds(e, id, b))
               && OthersSame(c, e, id)
  {
    ReachableInv(c);
    var task, steps := Tearing(id, retain, c.clock, Archiving), TeardownSteps(t, bundle, metaBytes, raises);
    DeleteRuns(c, t, id, retain, purge, bundle, metaBytes, raises);
    assert [Delete(t, id, retain, purge)] + steps
           == [Delete(t, id, retain, purge), ArchiveEnds(t, bundle, metaBytes), DevicesReleased(t),
               if raises then StopRaises(t) else StopReturns(t), LeaseFreed(t), SessionForgotten(t)];
    TornDownLeaves(Go(c, t, task), Exec(Go(c, t, task), steps), task, bundle, metaBytes, raises);
    SameTablesSameOthers(c, Go(c, t, task), Exec(Go(c, t, task), steps), id);
  }

  lemma DeleteRuns(c: Control, t: TaskId, id: SessionId, retain: bool, purge: bool, bundle: Option<nat>, metaBytes: nat, raises: bool)
    requires t !in c.tasks && id in c.registry && c.registry[id].state.Live? && !(retain && purge)
    ensures var task, steps := Tearing(id, retain, c.clock, Archiving), TeardownSteps(t, bundle, metaBytes, raises);
            && Feasible(Go(c, t, task), steps) && Feasible(c, [Delete(t, id, retain, purge)] + steps)
            && Exec(c, [Delete(t, id, retain, purge)] + steps) == Exec(Go(c, t, task), steps)
            && TornDown(Go(c, t, task), Exec(Go(c, t, task), steps), task, bundle, metaBytes, raises)
  {
    var begin, steps := Delete(t, id, retain, purge), TeardownSteps(t, bundle, metaBytes, raises);
    var c1 := Do(c, begin);
    assert c1 == Go(c, t, Tearing(id, retain, c.clock, Archiving));
    TeardownEnds(c1, t, bundle, metaBytes, raises);
    RunStarts(c, begin, steps);
  }

  lemma SameTablesSameOthers(c: Control, c1: Control, e: Control, id: SessionId)
    requires c1 == c.(tasks := c1.tasks) && OthersSame(c1, e, id)
    ensures OthersSame(c, e, id)
  {
    assert forall other :: SameAt(c1, e, other) ==> SameAt(c, e, other);
    assert forall other, board :: Holds(c1, other, board) <==> Holds(c, other, board);
  }

  // ---- DELETE of anything else

  /** A DELETE that removes a corpse takes it out of registry, launcher and store, and touches nobody else. */
  lemma DeleteOfCorpseLeaves(c: Control, t: TaskId, id: SessionId, purge: bool)
    requires Reachable(c) && t !in c.tasks && id in c.registry && c.registry[id].state.Dead?
    ensures var run := [Delete(t, id, false, purge), PurgeReturns(t), PurgeCompletes(t)];
            && Feasible(c, run)
            && var e := Exec(c, run);
               && id !in e.registry && id !in e.containers && id !in e.store
               && (forall other :: other != id ==> SameAt(c, e, other))
               && e.leases == c.leases && e.tasks == c.tasks
  {
    var c1 := Do(c, Delete(t, id, false, purge));
    assert c1 == Go(c, t, Purging(id, false));
    PurgeEnds(c1, t, id);
    RunStarts(c, Delete(t, id, false, purge), [PurgeReturns(t), PurgeCompletes(t)]);
    assert [Delete(t, id, false, purge)] + [PurgeReturns(t), PurgeCompletes(t)] == [Delete(t, id, false, purge), PurgeReturns(t), PurgeCompletes(t)];
    assert c1.tasks - {t} == c.tasks;
  }

  lemma PurgeEnds(c: Control, t: TaskId, id: SessionId)
    requires t in c.tasks && c.tasks[t] == Purging(id, false)
    ensures Feasible(c, [PurgeReturns(t), PurgeCompletes(t)])
    ensures Exec(c, [PurgeReturns(t), PurgeCompletes(t)])
            == c.(registry := c.registry - {id}, containers := c.containers - {id}, store := c.store - {id}, tasks := c.tasks - {t})
  {
    var c1 := Do(c, PurgeReturns(t));
    assert c1.tasks[t] == Purging(id, true);
    TwoSteps(c, PurgeReturns(t), PurgeCompletes(t));
    assert c1.tasks - {t} == c.tasks - {t};
  }

  /** A DELETE changes nothing if the session is unknown, the flags contradict each other, the corpse is to stay, or its purge raises. */
  lemma DeleteChangesNothing(c: Control, t: TaskId, id: SessionId, retain: bool, purge: bool)
    requires t !in c.tasks
    ensures id !in c.registry || (retain && purge) || (retain && c.registry[id].state.Dead?) ==>
              Feasible(c, [Delete(t, id, retain, purge)]) && Exec(c, [Delete(t, id, retain, purge)]) == c
    ensures id in c.registry && c.registry[id].state.Dead? && !retain ==>
              var run := [Delete(t, id, retain, purge), PurgeRaises(t)];
              Feasible(c, run) && Exec(c, run) == c
  {
    OneStep(c, Delete(t, id, retain, purge));
    if id in c.registry && c.registry[id].state.Dead? && !retain {
      var c1 := Do(c, Delete(t, id, retain, purge));
      assert c1 == Go(c, t, Purging(id, false));
      TwoSteps(c, Delete(t, id, retain, purge), PurgeRaises(t));
      assert Do(c1, PurgeRaises(t)).tasks == c.tasks;
    }
  }

  // ---- POST /sessions

  /** A create that is not refused and whose agent answers three times leaves a live session on its leased board. */
  lemma CreateLeaves(c: Control, t: TaskId, id: SessionId, board: Board, logs: Option<nat>)
    requires Reachable(c) && t !in c.tasks && id !in c.boards && board !in c.leases
    ensures var run := [Create(t, id, board), StartReturns(t, logs)] + [AgentAnswers(t), AgentAnswers(t), AgentAnswers(t)];
            && Feasible(c, run)
            && var e, info := Exec(c, run), AgentInfo(id, board, Live, None);
               && e.registry == c.registry[id := info] && e.containers == c.containers[id := info]
               && e.leases == c.leases[board := id] && e.tasks == c.tasks
               && (forall other :: other != id || logs.None? ==> (other in e.store <==> other in c.store) && (other in c.store ==> e.store[other] == c.store[other]))
  {
    Started2(c, t, id, board, logs);
    var c2 := Exec(c, [Create(t, id, board), StartReturns(t, logs)]);
    var answers := [AgentAnswers(t), AgentAnswers(t), AgentAnswers(t)];
    ThreeAnswersRegister(c2, t, id, board);
    RunsCompose(c, [Create(t, id, board), StartReturns(t, logs)], answers);
    assert c.tasks[t := Preparing(id, board, Polling)] - {t} == c.tasks;
  }

  lemma ThreeAnswersRegister(c: Control, t: TaskId, id: SessionId, board: Board)
    requires t in c.tasks && c.tasks[t] == Preparing(id, board, Polling)
    ensures var run := [AgentAnswers(t), AgentAnswers(t), AgentAnswers(t)];
            && Feasible(c, run)
            && var e := Exec(c, run);
               && e == c.(registry := c.registry[id := AgentInfo(id, board, Live, None)], registered := e.registered, tasks := e.tasks)
               && e.tasks == c.tasks - {t}
  {
    var c1 := Do(c, AgentAnswers(t));
    assert c1.tasks[t] == Preparing(id, board, Configuring);
    var c2 := Do(c1, AgentAnswers(t));
    assert c2.tasks[t] == Preparing(id, board, Booting);
    ThreeSteps(c, AgentAnswers(t), AgentAnswers(t), AgentAnswers(t));
    assert c2.tasks - {t} == c.tasks - {t};
  }

  lemma Started2(c: Control, t: TaskId, id: SessionId, board: Board, logs: Option<nat>)
    requires t !in c.tasks && id !in c.boards && board !in c.leases
    ensures var run := [Create(t, id, board), StartReturns(t, logs)];
            && Feasible(c, run)
            && var e := Exec(c, run);
               && e.leases == c.leases[board := id] && e.registry == c.registry && e.registered == c.registered
               && e.containers == c.containers[id := AgentInfo(id, board, Live, None)]
               && e.store == (if logs.Some? then c.store[id := Entry(Some(Meta(None, 0)), None, logs.value)] else c.store)
               && e.tasks == c.tasks[t := Preparing(id, board, Polling)] && e.clock == c.clock
  {
    var c1 := Do(c, Create(t, id, board));
    assert c1.tasks[t] == Starting(id, board);
    TwoSteps(c, Create(t, id, board), StartReturns(t, logs));
    assert c1.tasks[t := Preparing(id, board, Polling)] == c.tasks[t := Preparing(id, board, Polling)];
  }

  /** A create on a held board changes nothing, and one whose start raises leaves every table as it was. */
  lemma CreateRollsBack(c: Control, t: TaskId, id: SessionId, board: Board)
    requires Reachable(c) && t !in c.tasks && id !in c.boards
    ensures board in c.leases ==> Feasible(c, [Create(t, id, board)]) && Exec(c, [Create(t, id, board)]) == c
    ensures board !in c.leases ==>
              var run := [Create(t, id, board), StartRaises(t), FreeAfterFailedStart(t)];
              Feasible(c, run) && Exec(c, run) == c.(boards := c.boards[id := board])
  {
    OneStep(c, Create(t, id, board));
    if board !in c.leases {
      FailedCreate(c, t, id, board);
    }
  }

  lemma FailedCreate(c: Control, t: TaskId, id: SessionId, board: Board)
    requires Reachable(c) && t !in c.tasks && id !in c.boards && board !in c.leases
    ensures var run := [Create(t, id, board), StartRaises(t), FreeAfterFailedStart(t)];
            Feasible(c, run) && Exec(c, run) == c.(boards := c.boards[id := board])
  {
    var c1 := Do(c, Create(t, id, board));
    ReachableInv(c);
    assert id !in c.leases.Values;
    ReleasedAgain(c.leases, board, id);
    FailedStartFrees(c1, t, id, board);
    RunStarts(c, Create(t, id, board), [StartRaises(t), FreeAfterFailedStart(t)]);
    assert [Create(t, id, board)] + [StartRaises(t), FreeAfterFailedStart(t)] == [Create(t, id, board), StartRaises(t), FreeAfterFailedStart(t)];
    assert c.tasks[t := Starting(id, board)] - {t} == c.tasks;
  }

  lemma ReleasedAgain(leases: LeaseTable, board: Board, id: SessionId)
    requires board !in leases && id !in leases.Values
    ensures Released(leases[board := id], id) == leases
  {
  }

  lemma FailedStartFrees(c: Control, t: TaskId, id: SessionId, board: Board)
    requires t in c.tasks && c.tasks[t] == Starting(id, board)
    ensures Feasible(c, [StartRaises(t), FreeAfterFailedStart(t)])
    ensures Exec(c, [StartRaises(t), FreeAfterFailedStart(t)]) == c.(leases := Released(c.leases, id), tasks := c.tasks - {t})
  {
    var c1 := Do(c, StartRaises(t));
    assert c1.tasks[t] == StartFailed(id, board);
    TwoSteps(c, StartRaises(t), FreeAfterFailedStart(t));
    assert c1.tasks - {t} == c.tasks - {t};
  }

  /** The agent's good answers before the one that fails. */
  function Answers(t: TaskId, good: nat): seq<Action> {
    if good == 0 then [] else [AgentAnswers(t)] + Answers(t, good - 1)
  }

  lemma {:induction false} AnswersOnly(c: Control, t: TaskId, good: nat)
    requires t in c.tasks && c.tasks[t].Preparing?
    requires good <= (match c.tasks[t].phase case Polling => 2 case Configuring => 1 case Booting => 0)
    ensures Feasible(c, Answers(t, good))
    ensures var e := Exec(c, Answers(t, good));
            && e == c.(tasks := e.tasks) && t in e.tasks && e.tasks[t].Preparing?
            && e.tasks[t].id == c.tasks[t].id && e.tasks[t].board == c.tasks[t].board
    decreases good
  {
    if good > 0 {
      var c1 := Do(c, AgentAnswers(t));
      assert c1.tasks[t].Preparing? && c1 == c.(tasks := c1.tasks);
      AnswersOnly(c1, t, good - 1);
      RunStarts(c, AgentAnswers(t), Answers(t, good - 1));
    }
  }

  /**
   * A create whose agent fails, at whichever of its three answers: the session is listed as dead since
   * the failure with its diagnostics archived, its container is kept and not running unless the stop
   * raised, and its board is as free as before.
   */
  lemma CreateUnwinds(c: Control, t: TaskId, id: SessionId, board: Board, logs: Option<nat>, good: nat,
                      bundle: Option<nat>, metaBytes: nat, raises: bool)
    requires Reachable(c) && t !in c.tasks && id !in c.boards && board !in c.leases && good <= 2
    ensures var run := [Create(t, id, board), StartReturns(t, logs)] + Answers(t, good) + [AgentFails(t)]
                       + [ArchiveEnds(t, bundle, metaBytes), DevicesReleased(t),
                          if raises then StopRaises(t) else StopReturns(t), LeaseFreed(t), SessionForgotten(t)];
            && Feasible(c, run)
            && var e := Exec(c, run);
               && DeadSince(e.registry, id, board, c.clock)
               && (if raises then Running(e.containers, id) else DeadSince(e.containers, id, board, c.clock))
               && id in e.store && e.store[id].meta == Some(Meta(Some(c.clock), metaBytes)) && (bundle.Some? ==> e.store[id].bundle == bundle)
               && e.leases == c.leases
               && (forall other :: other != id ==> SameAt(c, e, other))
  {
    ReachableInv(c);
    var start, answers := [Create(t, id, board), StartReturns(t, logs)], Answers(t, good);
    Started2(c, t, id, board, logs);
    var c2 := Exec(c, start);
    AnswersOnly(c2, t, good);
    var c3 := Exec(c2, answers);
    RunsCompose(c, start, answers);
    var c4 := Do(c3, AgentFails(t));
    OneStep(c3, AgentFails(t));
    RunsCompose(c, start + answers, [AgentFails(t)]);
    var steps := TeardownSteps(t, bundle, metaBytes, raises);
    TeardownEnds(c4, t, bundle, metaBytes, raises);
    RunsCompose(c, start + answers + [AgentFails(t)], steps);
    UnwoundLeaves(c, c4, Exec(c4, steps), c4.tasks[t], board, bundle, metaBytes, raises);
  }

  lemma UnwoundLeaves(c: Control, c4: Control, e: Control, task: Task, board: Board, bundle: Option<nat>, metaBytes: nat, raises: bool)
    requires RecordsAgree(c) && task.Tearing? && task.retain && task.id !in c.boards && board !in c.leases && task.endedAt == c.clock
    requires c4.leases == c.leases[board := task.id] && c4.clock == c.clock
    requires c4.registry == c.registry[task.id := AgentInfo(task.id, board, Live, None)]
    requires c4.containers == c.containers[task.id := AgentInfo(task.id, board, Live, None)]
    requires forall other :: other != task.id ==> (other in c4.store <==> other in c.store) && (other in c.store ==> c4.store[other] == c.store[other])
    requires TornDown(c4, e, task, bundle, metaBytes, raises)
    ensures DeadSince(e.registry, task.id, board, c.clock)
    ensures if raises then Running(e.containers, task.id) else DeadSince(e.containers, task.id, board, c.clock)
    ensures task.id in e.store && e.store[task.id].meta == Some(Meta(Some(c.clock), metaBytes)) && (bundle.Some? ==> e.store[task.id].bundle == bundle)
    ensures e.leases == c.leases
    ensures forall other :: other != task.id ==> SameAt(c, e, other)
  {
    ReleasedAgain(c.leases, board, task.id);
    UnwoundOthers(c, c4, e, task, bundle, metaBytes, raises);
  }

  lemma UnwoundOthers(c: Control, c4: Control, e: Control, task: Task, bundle: Option<nat>, metaBytes: nat, raises: bool)
    requires task.Tearing? && TornDown(c4, e, task, bundle, metaBytes, raises)
    requires forall other :: other != task.id ==> SameAt(c, c4, other)
    ensures forall other :: other != task.id ==> SameAt(c, e, other)
  {
    forall other | other != task.id ensures SameAt(c, e, other) {
      assert SameAt(c, c4, other) && SameAt(c4, e, other);
    }
  }

  // ---- diagnostics routes

  /** A capture that finds nothing changes nothing; a snapshot archives as of now, and serving diagnostics leaves the metadata alone. */
  lemma CaptureLeaves(c: Control, t: TaskId, id: SessionId, writesMeta: bool, bundle: Option<nat>, metaBytes: nat)
    requires t !in c.tasks && id in c.registry
    ensures var run := [Capture(t, id, writesMeta), CaptureEnds(t, bundle, metaBytes)];
            && Feasible(c, run)
            && var e := Exec(c, run);
               && e == c.(store := e.store)
               && (bundle.None? ==> e.store == c.store)
               && (bundle.Some? && writesMeta ==> ArchivedSince(c.store, e.store, id, c.clock, bundle, metaBytes))
               && (bundle.Some? && !writesMeta ==> id in e.store && e.store[id].bundle == bundle
                                                   && e.store[id].meta == (if id in c.store then c.store[id].meta else None))
               && (forall other :: other != id ==> SameAt(c, e, other))
  {
    var c1 := Do(c, Capture(t, id, writesMeta));
    assert c1.tasks[t] == Capturing(id, writesMeta);
    TwoSteps(c, Capture(t, id, writesMeta), CaptureEnds(t, bundle, metaBytes));
    assert Do(c1, CaptureEnds(t, bundle, metaBytes)).tasks == c.tasks;
  }

  // ---- DELETE while anything else goes on

  /** The request or pass a step belongs to. */
  function Mover(a: Action): Option<TaskId> {
    match a
    case Tick(_) => None
    case Crash(_, _) => None
    case Restart(_) => None
    case _ => Some(a.t)
  }

  lemma OthersLeaveTask(c: Control, a: Action, t: TaskId)
    requires Enabled(c, a) && !a.Restart? && t in c.tasks && Mover(a) != Some(t)
    ensures t in Do(c, a).tasks && Do(c, a).tasks[t] == c.tasks[t]
  {
    if IsCreateStep(a) {
      CreateStepLeavesTask(c, a, t);
    } else if IsTeardownStep(a) {
      TeardownStepLeavesTask(c, a, t);
    }
  }

  lemma CreateStepLeavesTask(c: Control, a: Action, t: TaskId)
    requires Enabled(c, a) && IsCreateStep(a) && t in c.tasks && a.t != t
    ensures t in Do(c, a).tasks && Do(c, a).tasks[t] == c.tasks[t]
  {
    if a.AgentAnswers? || a.AgentFails? {
      AnswerLeavesTask(c, a, t);
    }
  }

  lemma AnswerLeavesTask(c: Control, a: Action, t: TaskId)
    requires Enabled(c, a) && (a.AgentAnswers? || a.AgentFails?) && t in c.tasks && a.t != t
    ensures t in Do(c, a).tasks && Do(c, a).tasks[t] == c.tasks[t]
  {
  }

  lemma TeardownStepLeavesTask(c: Control, a: Action, t: TaskId)
    requires Enabled(c, a) && IsTeardownStep(a) && t in c.tasks && a.t != t
    ensures t in Do(c, a).tasks && Do(c, a).tasks[t] == c.tasks[t]
  {
  }

  /** The request is still tearing the session down; if it will not retain it, no stop of it has raised so far. */
  ghost predicate StillTears(c: Control, t: TaskId, id: SessionId, forgets: bool) {
    && t in c.tasks && c.tasks[t].Tearing? && c.tasks[t].id == id && id in c.registered
    && (forgets ==> !c.tasks[t].retain && (c.tasks[t].stage.Freeing? || c.tasks[t].stage.Forgetting? ==> !c.tasks[t].stage.stopFailed))
  }

  predicate IsOver(c: Control, id: SessionId, forgets: bool) {
    ControlTheorems.Stage(c, id) >= (if forgets then 3 else 2)
  }

  lemma OwnTeardownStep(c: Control, a: Action, t: TaskId, id: SessionId, forgets: bool)
    requires Inv(c) && Enabled(c, a) && Mover(a) == Some(t) && StillTears(c, t, id, forgets) && (forgets ==> a != StopRaises(t))
    ensures StillTears(Do(c, a), t, id, forgets) || IsOver(Do(c, a), id, forgets)
  {
    assert IsTeardownStep(a);
    assert TaskInv(c, c.tasks[t]);
    if a.SessionForgotten? {
      assert Do(c, a) == DoSessionForgotten(c, t, c.tasks[t]);
    }
  }

  lemma OverStaysOver(c: Control, a: Action, t: TaskId, id: SessionId, forgets: bool)
    requires Inv(c) && Enabled(c, a) && !a.Restart?
    requires StillTears(c, t, id, forgets) || IsOver(c, id, forgets)
    requires forgets ==> a != StopRaises(t)
    ensures StillTears(Do(c, a), t, id, forgets) || IsOver(Do(c, a), id, forgets)
  {
    StepAdvances(c, a, id);
    if !IsOver(c, id, forgets) {
      if Mover(a) == Some(t) {
        OwnTeardownStep(c, a, t, id, forgets);
      } else {
        OthersLeaveTask(c, a, t);
        RegisteredStays(c, a, id);
      }
    }
  }

  lemma RegisteredStays(c: Control, a: Action, id: SessionId)
    requires Inv(c) && Enabled(c, a) && !a.Restart? && id in c.registered
    ensures id in Do(c, a).registered
  {
    StepAdvances(c, a, id);
    StepKeepsInv(c, a);
  }

  lemma {:induction false} TeardownIsOver(c: Control, run: seq<Action>, t: TaskId, id: SessionId, forgets: bool)
    requires Inv(c) && Feasible(c, run) && NoRestart(run) && (forgets ==> StopRaises(t) !in run)
    requires StillTears(c, t, id, forgets) || IsOver(c, id, forgets)
    ensures Inv(Exec(c, run)) && (StillTears(Exec(c, run), t, id, forgets) || IsOver(Exec(c, run), id, forgets))
    decreases |run|
  {
    if run != [] {
      StepKeepsInv(c, run[0]);
      assert !run[0].Restart?;
      OverStaysOver(c, run[0], t, id, forgets);
      TeardownIsOver(Do(c, run[0]), run[1..], t, id, forgets);
    }
  }

  /**
   * Whatever other requests, teardowns and reaper passes interleave with it, once a DELETE of a live
   * session has ended, the session is not live and its container does not run unless a stop of it
   * raised; without retain, and if its own stop did not raise, it is gone from registry and launcher.
   */
  lemma DeleteAmidOthers(c: Control, t: TaskId, id: SessionId, retain: bool, purge: bool, run: seq<Action>)
    requires Reachable(c) && t !in c.tasks && id in c.registry && c.registry[id].state.Live? && !(retain && purge)
    requires Feasible(c, [Delete(t, id, retain, purge)] + run) && NoRestart(run)
    requires t !in Exec(c, [Delete(t, id, retain, purge)] + run).tasks
    ensures var e := Exec(c, [Delete(t, id, retain, purge)] + run);
            && !(id in e.registry && e.registry[id].state.Live?)
            && (id in e.containers && e.containers[id].state.Live? ==> id in e.stopFailed)
            && (!retain && StopRaises(t) !in run ==> id !in e.registry && id !in e.containers)
  {
    ReachableInv(c);
    var begin := Delete(t, id, retain, purge);
    assert ([begin] + run)[0] == begin && ([begin] + run)[1..] == run;
    StepKeepsInv(c, begin);
    var c1 := Do(c, begin);
    assert c1 == Go(c, t, Tearing(id, retain, c.clock, Archiving));
    TeardownIsOver(c1, run, t, id, false);
    if !retain && StopRaises(t) !in run {
      TeardownIsOver(c1, run, t, id, true);
    }
  }

  // ---- a reaper pass

  predicate Overdue(info: AgentInfo, now: Time, ttl: Time) {
    info.state.Dead? && info.endedAt.Some? && now - info.endedAt.value > ttl
  }

  /** The corpses a pass stops at are exactly the overdue ones of its page. */
  lemma {:induction false} DoomedIsOverdue(page: seq<AgentInfo>, now: Time, ttl: Time)
    ensures forall info :: info in Doomed(page, now, ttl) <==>
              info in page && info.state.Dead? && info.endedAt.Some? && now - info.endedAt.value > ttl
  {
    if page != [] {
      DoomedIsOverdue(page[..|page| - 1], now, ttl);
      assert page == page[..|page| - 1] + [page[|page| - 1]];
    }
  }

  function CorpseIds(pending: seq<AgentInfo>): set<SessionId> {
    set info | info in pending :: info.id
  }

  function PurgeSteps(t: TaskId, corpses: nat, left: Contents): seq<Action> {
    if corpses == 0 then [] else [ReapPurgeReturns(t), ReapAdvances(t, left)] + PurgeSteps(t, corpses - 1, left)
  }

  lemma OneCorpse(c: Control, t: TaskId, pending: seq<AgentInfo>, now: Time, limits: Limits, left: Contents)
    requires pending != [] && t in c.tasks && c.tasks[t] == Reaping(pending, false, now, limits)
    requires |pending| == 1 ==> PassOutcome(c.store, left, c.registry - {pending[0].id}, now, limits)
    ensures Feasible(c, [ReapPurgeReturns(t), ReapAdvances(t, left)])
    ensures var e := Exec(c, [ReapPurgeReturns(t), ReapAdvances(t, left)]);
            && e == c.(registry := c.registry - {pending[0].id}, containers := c.containers - {pending[0].id}, store := e.store, tasks := e.tasks)
            && (if |pending| == 1 then e.store == left && e.tasks == c.tasks - {t}
                else e.store == c.store && e.tasks == c.tasks[t := Reaping(pending[1..], false, now, limits)])
  {
    var c1 := Do(c, ReapPurgeReturns(t));
    assert c1.tasks[t] == Reaping(pending, true, now, limits);
    TwoSteps(c, ReapPurgeReturns(t), ReapAdvances(t, left));
    assert c1.tasks - {t} == c.tasks - {t};
    assert |pending| > 1 ==> c1.tasks[t := Reaping(pending[1..], false, now, limits)] == c.tasks[t := Reaping(pending[1..], false, now, limits)];
  }

  lemma CorpsesSplit(sessions: Sessions, pending: seq<AgentInfo>)
    requires pending != []
    ensures sessions - CorpseIds(pending) == sessions - {pending[0].id} - CorpseIds(pending[1..])
    ensures |pending| == 1 ==> sessions - CorpseIds(pending) == sessions - {pending[0].id}
  {
    assert pending == [pending[0]] + pending[1..];
    assert CorpseIds(pending) == {pending[0].id} + CorpseIds(pending[1..]);
  }

  lemma {:induction false} CorpsesGo(c: Control, t: TaskId, pending: seq<AgentInfo>, now: Time, limits: Limits, left: Contents)
    requires pending != [] && t in c.tasks && c.tasks[t] == Reaping(pending, false, now, limits)
    requires PassOutcome(c.store, left, c.registry - CorpseIds(pending), now, limits)
    ensures Feasible(c, PurgeSteps(t, |pending|, left))
    ensures Exec(c, PurgeSteps(t, |pending|, left))
            == c.(registry := c.registry - CorpseIds(pending), containers := c.containers - CorpseIds(pending), store := left, tasks := c.tasks - {t})
    decreases |pending|
  {
    var first, rest := [ReapPurgeReturns(t), ReapAdvances(t, left)], pending[1..];
    CorpsesSplit(c.registry, pending);
    CorpsesSplit(c.containers, pending);
    OneCorpse(c, t, pending, now, limits, left);
    var c1 := Exec(c, first);
    if rest == [] {
      assert first + [] == first;
      assert PurgeSteps(t, 0, left) == [];
    } else {
      CorpsesGo(c1, t, rest, now, limits, left);
      RunsCompose(c, first, PurgeSteps(t, |rest|, left));
      assert c1.tasks - {t} == c.tasks - {t};
    }
  }

  /**
   * A pass whose purges return removes exactly the sessions of its page that are dead for longer than
   * the limit from registry and launcher, and leaves every other record and container as it was.
   */
  lemma ReapPassLeaves(c: Control, t: TaskId, page: seq<AgentInfo>, limits: Limits, left: Contents)
    requires Reachable(c)
    requires t !in c.tasks && forall i :: 0 <= i < |page| ==> page[i].id in c.registry && c.registry[page[i].id] == page[i]
    requires PassOutcome(c.store, left, c.registry - CorpseIds(Doomed(page, c.clock, limits.corpseTtl)), c.clock, limits)
    ensures var run := [ReapBegins(t, page, limits, left)] + PurgeSteps(t, |Doomed(page, c.clock, limits.corpseTtl)|, left);
            && Feasible(c, run)
            && var e := Exec(c, run);
               && (forall id :: id in e.registry <==>
                     id in c.registry && !(c.registry[id] in page && Overdue(c.registry[id], c.clock, limits.corpseTtl)))
               && (forall id :: id in e.containers <==>
                     id in c.containers && !(id in c.registry && c.registry[id] in page && Overdue(c.registry[id], c.clock, limits.corpseTtl)))
               && (forall id :: id in e.registry ==> e.registry[id] == c.registry[id])
               && (forall id :: id in e.containers ==> e.containers[id] == c.containers[id])
               && e.store == left && e.leases == c.leases && e.tasks == c.tasks
  {
    ReachableInv(c);
    PassRuns(c, t, page, limits, left);
    CorpsesOfPage(c.registry, page, c.clock, limits.corpseTtl);
  }

  /** The ids a pass removes are those of the registered records that are overdue and on the page. */
  lemma CorpsesOfPage(sessions: Sessions, page: seq<AgentInfo>, now: Time, ttl: Time)
    requires forall i :: 0 <= i < |page| ==> page[i].id in sessions && sessions[page[i].id] == page[i]
    ensures forall id :: id in CorpseIds(Doomed(page, now, ttl)) <==> id in sessions && sessions[id].id == id && sessions[id] in page && Overdue(sessions[id], now, ttl)
  {
    var pending := Doomed(page, now, ttl);
    DoomedIsOverdue(page, now, ttl);
    forall id | id in CorpseIds(pending)
      ensures id in sessions && sessions[id].id == id && sessions[id] in page && Overdue(sessions[id], now, ttl)
    {
      var info :| info in pending && info.id == id;
      assert info in page;
    }
    forall id | id in sessions && sessions[id].id == id && sessions[id] in page && Overdue(sessions[id], now, ttl)
      ensures id in CorpseIds(pending)
    {
      assert sessions[id] in pending;
    }
  }

  lemma PassRuns(c: Control, t: TaskId, page: seq<AgentInfo>, limits: Limits, left: Contents)
    requires t !in c.tasks && forall i :: 0 <= i < |page| ==> page[i].id in c.registry && c.registry[page[i].id] == page[i]
    requires PassOutcome(c.store, left, c.registry - CorpseIds(Doomed(page, c.clock, limits.corpseTtl)), c.clock, limits)
    ensures var pending := Doomed(page, c.clock, limits.corpseTtl);
            var run := [ReapBegins(t, page, limits, left)] + PurgeSteps(t, |pending|, left);
            && Feasible(c, run)
            && Exec(c, run) == c.(registry := c.registry - CorpseIds(pending), containers := c.containers - CorpseIds(pending), store := left)
  {
    var pending := Doomed(page, c.clock, limits.corpseTtl);
    var begin := ReapBegins(t, page, limits, left);
    if pending == [] {
      assert CorpseIds(pending) == {} && c.registry - {} == c.registry && c.containers - {} == c.containers;
      OneStep(c, begin);
      assert [begin] + PurgeSteps(t, 0, left) == [begin];
      assert c.tasks - {t} == c.tasks;
    } else {
      var c1 := Do(c, begin);
      assert c1 == Go(c, t, Reaping(pending, false, c.clock, limits));
      CorpsesGo(c1, t, pending, c.clock, limits, left);
      RunStarts(c, begin, PurgeSteps(t, |pending|, left));
      assert c1.tasks - {t} == c.tasks;
    }
  }

  // ---- what happens to the process and its containers

  /** A restart can come at any time and with any listing; it forgets all requests and keeps containers and store. */
  lemma RestartLeaves(c: Control, listing: seq<AgentInfo>)
    requires Reachable(c) && Lists(listing, c.containers)
    ensures Feasible(c, [Restart(listing)])
    ensures var e := Exec(c, [Restart(listing)]);
            && e.registry == c.containers && e.containers == c.containers && e.store == c.store && e.tasks == map[] && e.clock == c.clock
            && (forall board :: board in e.leases <==> exists id :: id in c.containers && c.containers[id].state.Live? && c.containers[id].board == board)
            && (forall board :: board in e.leases ==>
                  e.leases[board] in c.containers && c.containers[e.leases[board]].state.Live? && c.containers[e.leases[board]].board == board)
  {
    OneStep(c, Restart(listing));
    RestartRecovers(c, listing);
    var e := DoRestart(c, listing);
    forall board | board in e.leases
      ensures e.leases[board] in c.containers && c.containers[e.leases[board]].state.Live? && c.containers[e.leases[board]].board == board
    {
      RestartLeasesRunning(c, listing, board);
    }
    forall id | id in c.containers && c.containers[id].state.Live? ensures c.containers[id].board in e.leases {
      assert Running(e.containers, id);
    }
  }

  /** A running container can die at any time, with or without a time of death; nothing else changes. */
  lemma CrashLeaves(c: Control, id: SessionId, at: Option<Time>)
    requires id in c.containers && c.containers[id].state.Live?
    ensures Feasible(c, [Crash(id, at)])
    ensures var e := Exec(c, [Crash(id, at)]);
            && e == c.(containers := e.containers) && e.containers.Keys == c.containers.Keys
            && e.containers[id] == AgentInfo(c.containers[id].id, c.containers[id].board, Dead, at)
            && (forall other :: other in c.containers && other != id ==> e.containers[other] == c.containers[other])
  {
    OneStep(c, Crash(id, at));
  }
}
