/** What the control plane guarantees over whole runs, whichever way the handlers interleave. */
module ControlTheorems {
  import opened AgentInfos
  import opened ControlInvariant
  import opened ControlPlane
  import opened Launchers
  import opened Leases
  import opened Registries
  import opened Reapers
  import opened Stores
  import opened Wrappers

  // ---- board mutual exclusion

  /** A running container of which no stop has raised since the last restart. */
  predicate Serves(c: Control, id: SessionId) {
    Running(c.containers, id) && id !in c.stopFailed
  }

  lemma InvExcludes(c: Control)
    requires Inv(c)
    ensures forall id :: Running(c.containers, id) ==> id in c.stopFailed || id in c.dropped || Holds(c, id, c.containers[id].board)
    ensures forall id, board :: id in c.dropped ==> !Holds(c, id, board)
  {
  }

  /**
   * In every reachable state a running container's session holds the lease of its board, unless a
   * stop of it raised or the last restart gave the board to another session; one that was left out
   * holds nothing.  So a board has at most one running container that is neither.
   */
  lemma MutualExclusion(c: Control)
    requires Reachable(c)
    ensures forall id :: Running(c.containers, id) ==> id in c.stopFailed || id in c.dropped || Holds(c, id, c.containers[id].board)
    ensures forall id, board :: id in c.dropped ==> !Holds(c, id, board)
    ensures forall x, y ::
              (Serves(c, x) && Serves(c, y) && x !in c.dropped && y !in c.dropped && c.containers[x].board == c.containers[y].board)
              ==> x == y
  {
    ReachableInv(c);
    InvExcludes(c);
  }

  /** The session whose lease the step releases, if any. */
  ghost function Frees(c: Control, a: Action): Option<SessionId>
    requires Enabled(c, a)
  {
    match a
    case FreeAfterFailedStart(t) => Some(c.tasks[t].id)
    case LeaseFreed(t) => Some(c.tasks[t].id)
    case _ => None
  }

  /**
   * Between restarts a session loses its lease only to a step of its own, and only once its container
   * is not running or a stop of it raised: a late or duplicate teardown never frees a board for another.
   */
  lemma LeaseLostOnlyToItself(c: Control, a: Action, id: SessionId, board: Board)
    requires Reachable(c) && Enabled(c, a) && !a.Restart?
    ensures Holds(c, id, board) && !Holds(Do(c, a), id, board) ==>
              Frees(c, a) == Some(id) && (Running(c.containers, id) ==> id in c.stopFailed)
  {
    ReachableInv(c);
    if a.LeaseFreed? || a.FreeAfterFailedStart? {
      assert TaskInv(c, c.tasks[a.t]);
    } else {
      LeasesOnlyGrow(c, a);
    }
  }

  lemma LeasesOnlyGrow(c: Control, a: Action)
    requires Enabled(c, a) && !a.Restart? && !a.LeaseFreed? && !a.FreeAfterFailedStart?
    ensures Do(c, a).leases == c.leases || (a.Create? && a.board !in c.leases && Do(c, a).leases == c.leases[a.board := a.id])
  {
    if !IsSessionStep(a) {
      OtherStepsKeepLeases(c, a);
    }
  }

  lemma OtherStepsKeepLeases(c: Control, a: Action)
    requires Enabled(c, a) && !a.Restart? && !IsSessionStep(a)
    ensures Do(c, a).leases == c.leases
  {
    if IsReaperStep(a) {
      ReaperStepsKeepLeases(c, a);
    }
  }

  lemma ReaperStepsKeepLeases(c: Control, a: Action)
    requires Enabled(c, a) && IsReaperStep(a)
    ensures Do(c, a).leases == c.leases
  {
  }

  // ---- no stranded board

  ghost predicate NothingInFlight(c: Control) {
    forall id :: !BeingCreated(c, id) && !BeingTornDown(c, id)
  }

  /** The leases are the boards of the live sessions, but for those a restart left out. */
  ghost predicate LeasesAreLive(c: Control) {
    forall id, board :: Holds(c, id, board) <==> LiveIn(c.registry, id) && c.registry[id].board == board && id !in c.dropped
  }

  lemma InvStrandsNothing(c: Control)
    requires Inv(c) && NothingInFlight(c)
    ensures LeasesAreLive(c)
  {
    forall id, board
      ensures Holds(c, id, board) <==> LiveIn(c.registry, id) && c.registry[id].board == board && id !in c.dropped
    {
      assert !BeingCreated(c, id);
      assert !Forgets(c, id) by {
        assert !BeingTornDown(c, id);
      }
      if Holds(c, id, board) {
        assert Owned(c, id);
      }
      if LiveIn(c.registry, id) && id !in c.dropped {
        assert Owned(c, id);
      }
    }
  }

  /**
   * In every reachable state with no create and no teardown in flight, the leases are exactly the
   * boards of the live sessions, but for those the last restart left out.
   */
  lemma NoStrandedBoard(c: Control)
    requires Reachable(c) && NothingInFlight(c)
    ensures LeasesAreLive(c)
  {
    ReachableInv(c);
    InvStrandsNothing(c);
  }

  // ---- restart

  ghost predicate AllServe(c: Control) {
    forall id :: Running(c.containers, id) ==> id !in c.stopFailed && id !in c.dropped
  }

  /** If no running container was left out or would not stop, running boards are distinct, even in mid-create. */
  lemma AllServeMeansDistinct(c: Control)
    requires Inv(c) && AllServe(c)
    ensures RunningBoardsDistinct(c)
  {
    InvExcludes(c);
  }

  /** Every board a running container serves is leased to a container that runs on it. */
  ghost predicate RunningBoardsLeased(c: Control) {
    forall id :: Running(c.containers, id) ==>
      var board := c.containers[id].board;
      board in c.leases && Running(c.containers, c.leases[board]) && c.containers[c.leases[board]].board == board
  }

  lemma RestartLeasesEveryBoard(c: Control, listing: seq<AgentInfo>)
    requires Lists(listing, c.containers)
    ensures RunningBoardsLeased(DoRestart(c, listing))
  {
    var live, after := LiveOnes(listing), DoRestart(c, listing);
    LiveOnesAre(listing);
    forall id | Running(c.containers, id)
      ensures var board := c.containers[id].board;
              board in after.leases && Running(c.containers, after.leases[board]) && c.containers[after.leases[board]].board == board
    {
      var board := c.containers[id].board;
      assert c.containers[id] in live;
      RebuiltLeaseIsListed(live, board);
      RestartLeasesRunning(c, listing, board);
    }
  }

  /**
   * A restart from any reachable state, in whatever order the containers are listed, leaves the leases
   * exactly the running sessions that it does not leave out: no corpse has one, and every running
   * board is leased to a container on it.  It leaves out nobody if and only if running boards were
   * distinct, which they were if every running container could be stopped and was not left out before.
   */
  lemma RestartRecovers(c: Control, listing: seq<AgentInfo>)
    requires Reachable(c) && Lists(listing, c.containers)
    ensures var after := DoRestart(c, listing);
            && after.registry == c.containers
            && LeasesAreLive(after)
            && RunningBoardsLeased(after)
            && (after.dropped == {} <==> RunningBoardsDistinct(c))
            && (AllServe(c) ==> RunningBoardsDistinct(c))
  {
    ReachableInv(c);
    RestartKeepsInv(c, listing);
    InvStrandsNothing(DoRestart(c, listing));
    RestartLeasesEveryBoard(c, listing);
    RestartDropsNothingIff(c, listing);
    if AllServe(c) {
      AllServeMeansDistinct(c);
    }
  }

  lemma RunExtends(c: Control, run: seq<Action>, a: Action)
    requires Feasible(c, run) && Enabled(Exec(c, run), a)
    ensures Feasible(c, run + [a]) && Exec(c, run + [a]) == Do(Exec(c, run), a)
  {
    var end := Exec(c, run);
    assert Feasible(Do(end, a), []);
    RunStarts(end, a, []);
    assert [a] == [a] + [];
    RunsCompose(c, run, [a]);
  }

  /** Session 1 fails to become healthy and its stop raises; session 2 then gets the same board. */
  function FailedStopRun(board: Board): seq<Action> {
    [Create(0, 1, board), StartReturns(0, None), AgentFails(0), ArchiveEnds(0, None, 0), DevicesReleased(0),
     StopRaises(0), LeaseFreed(0), SessionForgotten(0), Create(0, 2, board), StartReturns(0, None)]
  }

  lemma {:induction false} FailedStopPrefix(board: Board, n: nat)
    requires n <= 10
    ensures var run := FailedStopRun(board)[..n];
            Feasible(INITIAL, run) && Exec(INITIAL, run) == FailedStopState(board, n)
  {
    if n == 0 {
      assert FailedStopRun(board)[..0] == [];
    } else {
      var a := FailedStopRun(board)[n - 1];
      FailedStopPrefix(board, n - 1);
      assert FailedStopRun(board)[..n] == FailedStopRun(board)[..n - 1] + [a];
      FailedStopStep(board, n - 1);
      RunExtends(INITIAL, FailedStopRun(board)[..n - 1], a);
    }
  }

  /** The states of that run. */
  function FailedStopState(board: Board, n: nat): Control {
    var one, two := AgentInfo.Fresh(1, board), AgentInfo.Fresh(2, board);
    var meta := Entry(Some(Meta(Some(0), 0)), None, 0);
    var drawn, both := map[1 := board], map[1 := board, 2 := board];
    var lease := map[board := 1];
    match n
    case 0 => INITIAL
    case 1 => Control(lease, map[], map[], map[], map[0 := Starting(1, board)], 0, drawn, {}, {}, {})
    case 2 => Control(lease, map[], map[1 := one], map[], map[0 := Preparing(1, board, Polling)], 0, drawn, {}, {}, {})
    case 3 => Control(lease, map[1 := one], map[1 := one], map[], map[0 := Tearing(1, true, 0, Archiving)], 0, drawn, {1}, {}, {})
    case 4 => Control(lease, map[1 := one], map[1 := one], map[1 := meta], map[0 := Tearing(1, true, 0, ReleasingDevices)], 0, drawn, {1}, {}, {})
    case 5 => Control(lease, map[1 := one], map[1 := one], map[1 := meta], map[0 := Tearing(1, true, 0, Stopping)], 0, drawn, {1}, {}, {})
    case 6 => Control(lease, map[1 := one], map[1 := one], map[1 := meta], map[0 := Tearing(1, true, 0, Freeing(true))], 0, drawn, {1}, {1}, {})
    case 7 => Control(map[], map[1 := one], map[1 := one], map[1 := meta], map[0 := Tearing(1, true, 0, Forgetting(true))], 0, drawn, {1}, {1}, {})
    case 8 => Control(map[], map[1 := one.Died(Some(0))], map[1 := one], map[1 := meta], map[], 0, drawn, {1}, {1}, {})
    case 9 => Control(map[board := 2], map[1 := one.Died(Some(0))], map[1 := one], map[1 := meta], map[0 := Starting(2, board)], 0, both, {1}, {1}, {})
    case _ => Control(map[board := 2], map[1 := one.Died(Some(0))], map[1 := one, 2 := two], map[1 := meta], map[0 := Preparing(2, board, Polling)], 0, both, {1}, {1}, {})
  }

  ghost predicate FailedStopStepWorks(board: Board, n: nat)
    requires n < 10
  {
    && Enabled(FailedStopState(board, n), FailedStopRun(board)[n])
    && Do(FailedStopState(board, n), FailedStopRun(board)[n]) == FailedStopState(board, n + 1)
  }

  lemma FailedStopStep(board: Board, n: nat)
    requires n < 10
    ensures FailedStopStepWorks(board, n)
  {
    if n >= 8 {
      SecondSessionStep(board, n);
    } else if n >= 6 {
      FailedStopLateStep(board, n);
    } else if n >= 4 {
      FailedStopMiddleStep(board, n);
    }
  }

  lemma FailedStopMiddleStep(board: Board, n: nat)
    requires 4 <= n < 6
    ensures FailedStopStepWorks(board, n)
  {
  }

  lemma FailedStopLateStep(board: Board, n: nat)
    requires 6 <= n < 8
    ensures FailedStopStepWorks(board, n)
  {
  }

  lemma SecondSessionStep(board: Board, n: nat)
    requires 8 <= n < 10
    ensures FailedStopStepWorks(board, n)
  {
  }

  /**
   * Restarts do leave sessions out: once a stop has raised, a restart can give the board back to the
   * container that would not stop, and the healthy session that holds the board loses it.
   */
  lemma RestartAfterFailedStopLosesALease(board: Board)
    ensures exists c, listing, id ::
              && Reachable(c) && c.dropped == {} && Lists(listing, c.containers)
              && Serves(c, id) && Holds(c, id, board)
              && !Holds(DoRestart(c, listing), id, board) && id in DoRestart(c, listing).dropped
  {
    var run := FailedStopRun(board);
    FailedStopPrefix(board, 10);
    assert run[..10] == run;
    var c := Exec(INITIAL, run);
    var one, two := AgentInfo.Fresh(1, board), AgentInfo.Fresh(2, board);
    RebuildKeepsTheLast(two, one);
    assert Reachable(c);
    assert Lists([two, one], c.containers);
    assert Serves(c, 2) && Holds(c, 2, board);
    assert !Holds(DoRestart(c, [two, one]), 2, board) && 2 in DoRestart(c, [two, one]).dropped;
  }

  lemma RebuildKeepsTheLast(first: AgentInfo, last: AgentInfo)
    requires first.state.Live? && last.state.Live?
    ensures last.board in RebuiltFrom(LiveOnes([first, last])) && RebuiltFrom(LiveOnes([first, last]))[last.board] == last.id
  {
    assert [first, last][..1] == [first] && [first][..0] == [];
    assert LiveOnes([first]) == [first];
    assert LiveOnes([first, last]) == [first, last];
  }

  ghost predicate NoStopRaises(run: seq<Action>) {
    forall i :: 0 <= i < |run| ==> !run[i].StopRaises?
  }

  lemma StopFailedStays(c: Control, a: Action)
    requires Enabled(c, a) && !a.StopRaises? && c.stopFailed == {}
    ensures Do(c, a).stopFailed == {}
  {
    if IsCreateStep(a) {
      CreateStepNotesNothing(c, a);
    } else if IsTeardownStep(a) {
      TeardownStepNotesNothing(c, a);
    }
  }

  lemma CreateStepNotesNothing(c: Control, a: Action)
    requires Enabled(c, a) && IsCreateStep(a)
    ensures Do(c, a).stopFailed == c.stopFailed && Do(c, a).dropped == c.dropped
  {
  }

  lemma TeardownStepNotesNothing(c: Control, a: Action)
    requires Enabled(c, a) && IsTeardownStep(a)
    ensures !a.StopRaises? ==> Do(c, a).stopFailed == c.stopFailed
    ensures Do(c, a).dropped == c.dropped
  {
  }

  /** Only a restart leaves a session out. */
  lemma DroppedStays(c: Control, a: Action)
    requires Enabled(c, a) && !a.Restart?
    ensures Do(c, a).dropped == c.dropped
  {
    if IsCreateStep(a) {
      CreateStepNotesNothing(c, a);
    } else if IsTeardownStep(a) {
      TeardownStepNotesNothing(c, a);
    }
  }

  /** While restarts are taken with distinct running boards only, no session is ever left out. */
  lemma {:induction false} SafeRestartsDropNothing(c: Control, run: seq<Action>)
    requires Inv(c) && c.dropped == {} && Feasible(c, run) && RestartsSafely(c, run)
    ensures Exec(c, run).dropped == {}
    decreases |run|
  {
    if run != [] {
      StepKeepsInv(c, run[0]);
      if run[0].Restart? {
        RestartDropsNothingIff(c, run[0].listing);
      } else {
        DroppedStays(c, run[0]);
      }
      SafeRestartsDropNothing(Do(c, run[0]), run[1..]);
    }
  }

  /** A run in which no stop raises restarts safely however often it restarts. */
  lemma {:induction false} WithoutFailedStops(c: Control, run: seq<Action>)
    requires Inv(c) && c.stopFailed == {} && c.dropped == {} && Feasible(c, run) && NoStopRaises(run)
    ensures RestartsSafely(c, run) && Exec(c, run).stopFailed == {}
    decreases |run|
  {
    if run != [] {
      AllServeMeansDistinct(c);
      StepKeepsInv(c, run[0]);
      assert !run[0].StopRaises?;
      StopFailedStays(c, run[0]);
      if run[0].Restart? {
        RestartDropsNothingIff(c, run[0].listing);
      } else {
        DroppedStays(c, run[0]);
      }
      WithoutFailedStops(Do(c, run[0]), run[1..]);
    }
  }

  /** As long as no stop raises, every running container holds its board over any run with any restarts. */
  lemma StrictMutualExclusion(run: seq<Action>)
    requires Feasible(INITIAL, run) && NoStopRaises(run)
    ensures var c := Exec(INITIAL, run);
            && (forall id :: Running(c.containers, id) ==> Holds(c, id, c.containers[id].board))
            && RunningBoardsDistinct(c)
  {
    var c := Exec(INITIAL, run);
    InitialInv();
    WithoutFailedStops(INITIAL, run);
    SafeRestartsDropNothing(INITIAL, run);
    assert Reachable(c);
    ReachableInv(c);
    InvExcludes(c);
    AllServeMeansDistinct(c);
  }

  // ---- the reaper

  predicate IsReaperStep(a: Action) {
    a.ReapBegins? || a.ReapPurgeReturns? || a.ReapPurgeRaises? || a.ReapAdvances?
  }

  /** What a reaper step is about to remove is neither live nor being created. */
  lemma DoomedIsSettled(c: Control, t: TaskId)
    requires Inv(c) && t in c.tasks && c.tasks[t].Reaping?
    ensures c.tasks[t].pending != [] && Settled(c, c.tasks[t].pending[0].id)
    ensures !BeingCreated(c, c.tasks[t].pending[0].id) && !Owned(c, c.tasks[t].pending[0].id)
  {
    assert TaskInv(c, c.tasks[t]);
    RegisteredIsNotBeingCreated(c, c.tasks[t].pending[0].id);
  }

  /**
   * However stale its page is, a reaper step leaves the record, the container and the store entry of
   * every live session and of every session being created as they were, and touches no lease.
   */
  lemma ReaperSparesTheLiving(c: Control, a: Action, id: SessionId)
    requires Reachable(c) && Enabled(c, a) && IsReaperStep(a)
    requires LiveIn(c.registry, id) || BeingCreated(c, id)
    ensures SameAt(c, Do(c, a), id) && Do(c, a).leases == c.leases
  {
    ReachableInv(c);
    if a.ReapAdvances? {
      AdvanceSpares(c, a.t, a.left, id);
    } else {
      OtherReaperStepSpares(c, a, id);
    }
  }

  lemma OtherReaperStepSpares(c: Control, a: Action, id: SessionId)
    requires Inv(c) && Enabled(c, a) && IsReaperStep(a) && !a.ReapAdvances?
    requires LiveIn(c.registry, id) || BeingCreated(c, id)
    ensures SameAt(c, Do(c, a), id) && Do(c, a).leases == c.leases
  {
    if a.ReapBegins? {
      if Doomed(a.page, c.clock, a.limits.corpseTtl) == [] {
        PassSpares(c, c.registry, a.left, id);
      }
    } else {
      DoomedIsSettled(c, a.t);
    }
  }

  lemma AdvanceSpares(c: Control, t: TaskId, left: Contents, id: SessionId)
    requires Inv(c) && Enabled(c, ReapAdvances(t, left))
    requires LiveIn(c.registry, id) || BeingCreated(c, id)
    ensures SameAt(c, Do(c, ReapAdvances(t, left)), id) && Do(c, ReapAdvances(t, left)).leases == c.leases
  {
    DoomedIsSettled(c, t);
    if |c.tasks[t].pending| == 1 {
      PassSpares(c, Removed(c.registry, c.tasks[t].pending[0].id), left, id);
    }
  }

  ghost predicate SameAt(c: Control, c': Control, id: SessionId) {
    && (id in c'.registry <==> id in c.registry) && (id in c.registry ==> c'.registry[id] == c.registry[id])
    && (id in c'.containers <==> id in c.containers) && (id in c.containers ==> c'.containers[id] == c.containers[id])
    && (id in c'.store <==> id in c.store) && (id in c.store ==> c'.store[id] == c.store[id])
  }

  lemma PassSpares(c: Control, sessions: Sessions, left: Contents, id: SessionId)
    requires Inv(c) && PassDeletes(c.store, left, sessions)
    requires LiveIn(sessions, id) || BeingCreated(c, id)
    ensures (id in left <==> id in c.store) && (id in c.store ==> left[id] == c.store[id])
  {
    CreatedHasNoDeath(c);
  }

  /** A purge, by the reaper or by a DELETE of a corpse, never removes a running container that can still be stopped. */
  lemma PurgeSparesTheRunning(c: Control, a: Action, id: SessionId)
    requires Reachable(c) && Enabled(c, a) && (a.ReapPurgeReturns? || a.PurgeReturns?)
    requires Serves(c, id)
    ensures Serves(Do(c, a), id)
  {
    ReachableInv(c);
    if a.ReapPurgeReturns? {
      DoomedIsSettled(c, a.t);
    } else {
      assert TaskInv(c, c.tasks[a.t]);
    }
  }

  // ---- the life of a session

  /** 0 before registration, then 1 while live, 2 while dead, 3 once forgotten. */
  function Stage(c: Control, id: SessionId): nat {
    if id in c.registry then (if c.registry[id].state.Live? then 1 else 2)
    else if id in c.registered then 3 else 0
  }

  lemma RegistrationAdvances(c: Control, a: Action, id: SessionId)
    requires Inv(c) && Enabled(c, a) && (a.AgentAnswers? || a.AgentFails?)
    ensures Stage(c, id) <= Stage(Do(c, a), id)
  {
    assert TaskInv(c, c.tasks[a.t]);
  }

  lemma CreateStepAdvances(c: Control, a: Action, id: SessionId)
    requires Inv(c) && Enabled(c, a) && IsCreateStep(a)
    ensures Stage(c, id) <= Stage(Do(c, a), id)
  {
    if a.AgentAnswers? || a.AgentFails? {
      RegistrationAdvances(c, a, id);
    }
  }

  lemma TeardownStepAdvances(c: Control, a: Action, id: SessionId)
    requires Inv(c) && Enabled(c, a) && IsTeardownStep(a)
    ensures Stage(c, id) <= Stage(Do(c, a), id)
  {
    if a.SessionForgotten? {
      assert TaskInv(c, c.tasks[a.t]);
    }
  }

  lemma RemovalAdvances(c: Control, a: Action, id: SessionId)
    requires Inv(c) && Enabled(c, a) && (a.PurgeCompletes? || a.ReapAdvances?)
    ensures Stage(c, id) <= Stage(Do(c, a), id)
  {
    assert TaskInv(c, c.tasks[a.t]);
  }

  lemma StepAdvances(c: Control, a: Action, id: SessionId)
    requires Inv(c) && Enabled(c, a) && !a.Restart?
    ensures Stage(c, id) <= Stage(Do(c, a), id)
  {
    if IsCreateStep(a) {
      CreateStepAdvances(c, a, id);
    } else if IsTeardownStep(a) {
      TeardownStepAdvances(c, a, id);
    } else if a.PurgeCompletes? || a.ReapAdvances? {
      RemovalAdvances(c, a, id);
    }
  }

  /** Between restarts no step of any handler takes a session back to an earlier stage. */
  lemma StageAdvances(c: Control, a: Action, id: SessionId)
    requires Reachable(c) && Enabled(c, a) && !a.Restart?
    ensures Stage(c, id) <= Stage(Do(c, a), id)
  {
    ReachableInv(c);
    StepAdvances(c, a, id);
  }

  lemma {:induction false} RunAdvances(c: Control, run: seq<Action>, id: SessionId)
    requires Inv(c) && Feasible(c, run) && NoRestart(run)
    ensures Stage(c, id) <= Stage(Exec(c, run), id)
    decreases |run|
  {
    if run != [] {
      assert !run[0].Restart?;
      StepKeepsInv(c, run[0]);
      StepAdvances(c, run[0], id);
      RunAdvances(Do(c, run[0]), run[1..], id);
    }
  }

  /** Between restarts a session only goes from absent to live to dead to gone, possibly skipping ahead. */
  lemma SessionsNeverRevive(c: Control, run: seq<Action>, id: SessionId)
    requires Reachable(c) && Feasible(c, run) && NoRestart(run)
    ensures Stage(c, id) <= Stage(Exec(c, run), id)
  {
    ReachableInv(c);
    RunAdvances(c, run, id);
  }

  /**
   * A restart takes a session back exactly if it was dead while its container ran, and that happens
   * only after a stop of it raised.
   */
  lemma RestartRevivesIff(c: Control, listing: seq<AgentInfo>, id: SessionId)
    requires Reachable(c) && Lists(listing, c.containers)
    ensures Stage(DoRestart(c, listing), id) < Stage(c, id) <==> Stage(c, id) == 2 && Running(c.containers, id)
    ensures Stage(c, id) == 2 && Running(c.containers, id) ==> id in c.stopFailed
  {
    ReachableInv(c);
  }

  lemma {:induction false} GoneForGood(c: Control, run: seq<Action>, id: SessionId)
    requires Inv(c) && Feasible(c, run) && Stage(c, id) == 3
    ensures Stage(Exec(c, run), id) == 3
    decreases |run|
  {
    if run != [] {
      StepKeepsInv(c, run[0]);
      if !run[0].Restart? {
        StepAdvances(c, run[0], id);
      }
      GoneForGood(Do(c, run[0]), run[1..], id);
    }
  }

  /** A session that has left the registry never comes back, not even over restarts. */
  lemma GoneStaysGone(c: Control, run: seq<Action>, id: SessionId)
    requires Reachable(c) && Feasible(c, run) && id in c.registered && id !in c.registry
    ensures id !in Exec(c, run).registry && id !in Exec(c, run).containers
  {
    ReachableInv(c);
    GoneForGood(c, run, id);
    RunKeepsInv(c, run);
  }

  // ---- nothing blocks for good

  /** A store a pass may leave: everything reapable deleted. */
  function Stripped(store: Contents, sessions: Sessions): Contents {
    map id | id in store && !Reapable(store, sessions, id) :: store[id]
  }

  lemma StrippedIsAnOutcome(store: Contents, sessions: Sessions, now: Time, limits: Limits)
    ensures PassOutcome(store, Stripped(store, sessions), sessions, now, limits)
  {
    var left := Stripped(store, sessions);
    assert forall id :: id in left ==> EndedAt(left, id) == EndedAt(store, id);
  }

  /** A step the task can always take next, with every answer it waits for being a failure. */
  function NextStep(c: Control, t: TaskId): Action
    requires t in c.tasks
  {
    match c.tasks[t]
    case Starting(_, _) => StartRaises(t)
    case StartFailed(_, _) => FreeAfterFailedStart(t)
    case Preparing(_, _, _) => AgentFails(t)
    case Tearing(_, _, _, stage) =>
      (match stage
       case Archiving => ArchiveEnds(t, None, 0)
       case ReleasingDevices => DevicesReleased(t)
       case Stopping => StopReturns(t)
       case Freeing(_) => LeaseFreed(t)
       case Forgetting(_) => SessionForgotten(t))
    case Purging(_, removed) => if removed then PurgeCompletes(t) else PurgeReturns(t)
    case Reaping(pending, removed, now, limits) =>
      if pending == [] || !removed then ReapPurgeRaises(t)
      else ReapAdvances(t, Stripped(c.store, Removed(c.registry, pending[0].id)))
    case Capturing(_, _) => CaptureEnds(t, None, 0)
  }

  function StepsLeft(task: Task): nat {
    match task
    case Starting(_, _) => 2
    case StartFailed(_, _) => 1
    case Preparing(_, _, _) => 6
    case Tearing(_, _, _, stage) =>
      (match stage
       case Archiving => 5
       case ReleasingDevices => 4
       case Stopping => 3
       case Freeing(_) => 2
       case Forgetting(_) => 1)
    case Purging(_, removed) => if removed then 1 else 2
    case Reaping(pending, removed, _, _) => 2 * |pending| + (if removed then 0 else 1)
    case Capturing(_, _) => 1
  }

  ghost predicate StepsOn(c: Control, a: Action, t: TaskId)
    requires t in c.tasks
  {
    && Enabled(c, a) && !a.Restart?
    && OnlyTask(c, Do(c, a), t)
    && (t in Do(c, a).tasks ==> StepsLeft(Do(c, a).tasks[t]) < StepsLeft(c.tasks[t]))
  }

  lemma ReaperStepsOn(c: Control, t: TaskId)
    requires Inv(c) && t in c.tasks && c.tasks[t].Reaping?
    ensures StepsOn(c, NextStep(c, t), t)
  {
    DoomedIsSettled(c, t);
    if c.tasks[t].removed {
      PurgedStepsOn(c, t);
    }
  }

  lemma PurgedStepsOn(c: Control, t: TaskId)
    requires IsReaping(c, t, true)
    ensures StepsOn(c, NextStep(c, t), t)
  {
    StrippedIsAnOutcome(c.store, Removed(c.registry, c.tasks[t].pending[0].id), c.tasks[t].now, c.tasks[t].limits);
  }

  lemma CreateStepsOn(c: Control, t: TaskId)
    requires t in c.tasks && c.tasks[t].IsCreate()
    ensures StepsOn(c, NextStep(c, t), t)
  {
  }

  lemma EarlyTeardownStepsOn(c: Control, t: TaskId)
    requires Waits(c, t, Archiving) || Waits(c, t, ReleasingDevices) || Waits(c, t, Stopping)
    ensures StepsOn(c, NextStep(c, t), t)
  {
  }

  lemma LateTeardownStepsOn(c: Control, t: TaskId)
    requires t in c.tasks && c.tasks[t].Tearing? && (c.tasks[t].stage.Freeing? || c.tasks[t].stage.Forgetting?)
    ensures StepsOn(c, NextStep(c, t), t)
  {
  }

  lemma NextStepWorks(c: Control, t: TaskId)
    requires Inv(c) && t in c.tasks
    ensures StepsOn(c, NextStep(c, t), t)
  {
    if c.tasks[t].Reaping? {
      ReaperStepsOn(c, t);
    } else if c.tasks[t].IsCreate() {
      CreateStepsOn(c, t);
    } else if c.tasks[t].Tearing? {
      if c.tasks[t].stage.Freeing? || c.tasks[t].stage.Forgetting? {
        LateTeardownStepsOn(c, t);
      } else {
        EarlyTeardownStepsOn(c, t);
      }
    }
  }

  lemma RunStarts(c: Control, a: Action, rest: seq<Action>)
    requires Enabled(c, a) && Feasible(Do(c, a), rest)
    ensures Feasible(c, [a] + rest) && Exec(c, [a] + rest) == Exec(Do(c, a), rest)
  {
    assert ([a] + rest)[1..] == rest;
  }

  lemma StartsWithoutRestart(a: Action, rest: seq<Action>)
    requires !a.Restart? && NoRestart(rest)
    ensures NoRestart([a] + rest)
  {
  }

  lemma {:induction false} EndsFrom(c: Control, t: TaskId) returns (run: seq<Action>)
    requires Inv(c) && t in c.tasks
    ensures Feasible(c, run) && NoRestart(run)
    ensures Exec(c, run).tasks == c.tasks - {t}
    decreases StepsLeft(c.tasks[t]), 1
  {
    var a := NextStep(c, t);
    NextStepWorks(c, t);
    StepKeepsInv(c, a);
    run := EndsAfter(c, a, t);
  }

  lemma RestUntouched(c: Control, c': Control, t: TaskId)
    requires OnlyTask(c, c', t)
    ensures c'.tasks - {t} == c.tasks - {t}
    ensures t !in c'.tasks ==> c'.tasks == c.tasks - {t}
  {
  }

  lemma {:induction false} EndsAfter(c: Control, a: Action, t: TaskId) returns (run: seq<Action>)
    requires Inv(c) && t in c.tasks && StepsOn(c, a, t) && Inv(Do(c, a))
    ensures Feasible(c, run) && NoRestart(run)
    ensures Exec(c, run).tasks == c.tasks - {t}
    decreases StepsLeft(c.tasks[t]), 0
  {
    var rest := [];
    if t in Do(c, a).tasks {
      rest := EndsFrom(Do(c, a), t);
    }
    RestUntouched(c, Do(c, a), t);
    RunStarts(c, a, rest);
    StartsWithoutRestart(a, rest);
    run := [a] + rest;
  }

  lemma {:induction false} RunsCompose(c: Control, first: seq<Action>, second: seq<Action>)
    requires Feasible(c, first) && Feasible(Exec(c, first), second)
    ensures Feasible(c, first + second)
    ensures Exec(c, first + second) == Exec(Exec(c, first), second)
    decreases |first|
  {
    if first == [] {
      assert first + second == second;
    } else {
      RunsCompose(Do(c, first[0]), first[1..], second);
      assert (first + second)[1..] == first[1..] + second;
    }
  }

  /** From any reachable state each task can be brought to its end by its own steps alone, without a restart. */
  lemma TaskCanEnd(c: Control, t: TaskId) returns (run: seq<Action>)
    requires Reachable(c) && t in c.tasks
    ensures Feasible(c, run) && NoRestart(run)
    ensures Exec(c, run).tasks == c.tasks - {t}
  {
    ReachableInv(c);
    run := EndsFrom(c, t);
  }

  lemma {:induction false} AllEnd(c: Control) returns (run: seq<Action>)
    requires Inv(c)
    ensures Feasible(c, run) && NoRestart(run)
    ensures Exec(c, run).tasks == map[] && Inv(Exec(c, run))
    decreases |c.tasks|
  {
    if c.tasks == map[] {
      run := [];
    } else {
      var t :| t in c.tasks;
      var first := EndsFrom(c, t);
      RunKeepsInv(c, first);
      var second := AllEnd(Exec(c, first));
      RunsCompose(c, first, second);
      run := first + second;
    }
  }

  /**
   * No handler ever waits for another: from any reachable state, even if every agent fails from now
   * on, all tasks can end without a restart, and then no board is stranded.
   */
  lemma EverythingCanSettle(c: Control) returns (run: seq<Action>)
    requires Reachable(c)
    ensures Feasible(c, run) && NoRestart(run)
    ensures Exec(c, run).tasks == map[] && LeasesAreLive(Exec(c, run))
  {
    ReachableInv(c);
    run := AllEnd(c);
    InvStrandsNothing(Exec(c, run));
  }
}
