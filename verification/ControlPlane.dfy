/**
 * The control plane as a transition system.  The handlers run on one event loop, so a step is the
 * code between two awaits; what a handler still has to do is its task.  Answers of agents, of the
 * launcher and of the clock are parameters of the steps.
 */
module ControlPlane {
  import opened AgentInfos
  import opened Launchers
  import opened Leases
  import opened Registries
  import opened Reapers
  import opened Stores
  import opened Wrappers

  type TaskId = nat

  // What create_session is waiting for once its container runs.
  datatype Phase = Polling | Configuring | Booting

  // What teardown_session is waiting for.
  datatype Stage =
    | Archiving
    | ReleasingDevices
    | Stopping
    | Freeing(stopFailed: bool)
    | Forgetting(stopFailed: bool)

  datatype Limits = Limits(corpseTtl: Time, bundleTtl: Time, maxBytes: int)

  datatype Task =
    | Starting(id: SessionId, board: Board)
    | StartFailed(id: SessionId, board: Board)
    | Preparing(id: SessionId, board: Board, phase: Phase)
    | Tearing(id: SessionId, retain: bool, endedAt: Time, stage: Stage)
    | Purging(id: SessionId, removed: bool)
    | Reaping(pending: seq<AgentInfo>, removed: bool, now: Time, limits: Limits)
    | Capturing(id: SessionId, writesMeta: bool)
  {
    predicate IsCreate() {
      Starting? || StartFailed? || Preparing?
    }
  }

  // Four history variables follow the state proper: the board each session id was drawn for, the
  // sessions that have been registered, those whose stop raised since the last restart, and the
  // running ones whose board the last restart gave to another session.
  datatype Control = Control(
    leases: LeaseTable,
    registry: Sessions,
    containers: Containers,
    store: Contents,
    tasks: map<TaskId, Task>,
    clock: Time,
    boards: map<SessionId, Board>,
    registered: set<SessionId>,
    stopFailed: set<SessionId>,
    dropped: set<SessionId>)

  const INITIAL := Control(map[], map[], map[], map[], map[], 0, map[], {}, {}, {})

  datatype Action =
    | Tick(now: Time)
    | Crash(id: SessionId, at: Option<Time>)
    | Create(t: TaskId, id: SessionId, board: Board)
    | StartReturns(t: TaskId, logs: Option<nat>)
    | StartRaises(t: TaskId)
    | FreeAfterFailedStart(t: TaskId)
    | AgentAnswers(t: TaskId)
    | AgentFails(t: TaskId)
    | ArchiveEnds(t: TaskId, bundle: Option<nat>, metaBytes: nat)
    | DevicesReleased(t: TaskId)
    | StopReturns(t: TaskId)
    | StopRaises(t: TaskId)
    | LeaseFreed(t: TaskId)
    | SessionForgotten(t: TaskId)
    | Delete(t: TaskId, id: SessionId, retain: bool, purge: bool)
    | PurgeReturns(t: TaskId)
    | PurgeRaises(t: TaskId)
    | PurgeCompletes(t: TaskId)
    | ReapBegins(t: TaskId, page: seq<AgentInfo>, limits: Limits, left: Contents)
    | ReapPurgeReturns(t: TaskId)
    | ReapPurgeRaises(t: TaskId)
    | ReapAdvances(t: TaskId, left: Contents)
    | Capture(t: TaskId, id: SessionId, writesMeta: bool)
    | CaptureEnds(t: TaskId, bundle: Option<nat>, metaBytes: nat)
    | Restart(listing: seq<AgentInfo>)

  function Go(c: Control, t: TaskId, task: Task): Control {
    c.(tasks := c.tasks[t := task])
  }

  function Finish(c: Control, t: TaskId): Control {
    c.(tasks := c.tasks - {t})
  }

  /** registry.add */
  function Register(c: Control, info: AgentInfo): Control {
    c.(registry := Added(c.registry, info), registered := c.registered + {info.id})
  }

  // ---- POST /sessions

  /** Draws the id and tries the lease; a held board answers 409 and leaves everything as it was. */
  function DoCreate(c: Control, t: TaskId, id: SessionId, board: Board): Control {
    if board in c.leases then c
    else Go(c.(leases := Acquired(c.leases, board, id), boards := c.boards[id := board]), t, Starting(id, board))
  }

  /** The container runs; a launcher may leave a log directory without a time of death behind. */
  function DoStartReturns(c: Control, t: TaskId, task: Task, logs: Option<nat>): Control
    requires task.Starting?
  {
    var store := if logs.Some? then c.store[task.id := Entry(Some(Meta(None, 0)), None, logs.value)] else c.store;
    Go(c.(containers := Started(c.containers, task.id, task.board), store := store), t, Preparing(task.id, task.board, Polling))
  }

  function DoAgentAnswers(c: Control, t: TaskId, task: Task): Control
    requires task.Preparing?
  {
    match task.phase
    case Polling => Go(c, t, task.(phase := Configuring))
    case Configuring => Go(c, t, task.(phase := Booting))
    case Booting => Finish(Register(c, AgentInfo.Fresh(task.id, task.board)), t)
  }

  /** Any failure after the start: register the session and tear it down, keeping the container. */
  function DoAgentFails(c: Control, t: TaskId, task: Task): Control
    requires task.Preparing?
  {
    Go(Register(c, AgentInfo.Fresh(task.id, task.board)), t, Tearing(task.id, true, c.clock, Archiving))
  }

  // ---- teardown_session

  /** Whichever tier produced a bundle, it is written, and then the metadata is. */
  function Archived(store: Contents, id: SessionId, bundle: Option<nat>, meta: Meta): Contents {
    WithMeta(if bundle.Some? then WithBundle(store, id, bundle.value) else store, id, meta)
  }

  function DoArchiveEnds(c: Control, t: TaskId, task: Task, bundle: Option<nat>, metaBytes: nat): Control
    requires task.Tearing?
  {
    Go(c.(store := Archived(c.store, task.id, bundle, Meta(Some(task.endedAt), metaBytes))), t, task.(stage := ReleasingDevices))
  }

  function DoStopReturns(c: Control, t: TaskId, task: Task): Control
    requires task.Tearing?
  {
    Go(c.(containers := Stopped(c.containers, task.id, !task.retain, c.clock)), t, task.(stage := Freeing(false)))
  }

  function DoStopRaises(c: Control, t: TaskId, task: Task): Control
    requires task.Tearing?
  {
    Go(c.(stopFailed := c.stopFailed + {task.id}), t, task.(stage := Freeing(true)))
  }

  function DoLeaseFreed(c: Control, t: TaskId, task: Task): Control
    requires task.Tearing? && task.stage.Freeing?
  {
    Go(c.(leases := Released(c.leases, task.id)), t, task.(stage := Forgetting(task.stage.stopFailed)))
  }

  function DoSessionForgotten(c: Control, t: TaskId, task: Task): Control
    requires task.Tearing? && task.stage.Forgetting?
  {
    var registry :=
      if task.retain || task.stage.stopFailed then MarkedDead(c.registry, task.id, task.endedAt)
      else Removed(c.registry, task.id);
    Finish(c.(registry := registry), t)
  }

  // ---- DELETE /sessions/{id}

  function DoDelete(c: Control, t: TaskId, id: SessionId, retain: bool, purge: bool): Control {
    if id !in c.registry || (retain && purge) then c
    else if c.registry[id].state.Live? then Go(c, t, Tearing(id, retain, c.clock, Archiving))
    else if retain then c
    else Go(c, t, Purging(id, false))
  }

  function DoPurgeReturns(c: Control, t: TaskId, task: Task): Control
    requires task.Purging?
  {
    Go(c.(containers := Purged(c.containers, task.id)), t, Purging(task.id, true))
  }

  function DoPurgeCompletes(c: Control, t: TaskId, task: Task): Control
    requires task.Purging?
  {
    Finish(c.(store := c.store - {task.id}, registry := Removed(c.registry, task.id)), t)
  }

  // ---- the reaper

  /** The records of a page the corpse loop stops at: dead, with a time of death older than the limit. */
  function Doomed(page: seq<AgentInfo>, now: Time, ttl: Time): seq<AgentInfo> {
    if page == [] then []
    else
      var n := |page| - 1;
      var before := Doomed(page[..n], now, ttl);
      if page[n].state.Dead? && page[n].endedAt.Some? && now - page[n].endedAt.value > ttl then before + [page[n]] else before
  }

  /** Everything the store part of a pass promises about the store it leaves. */
  ghost predicate PassOutcome(before: Contents, after: Contents, sessions: Sessions, now: Time, limits: Limits) {
    && PassDeletes(before, after, sessions)
    && (TotalBytes(after) <= limits.maxBytes || forall id :: id in after ==> LiveIn(sessions, id) || EndedAt(after, id).None?)
    && (forall id :: id in after ==> !Expired(after, sessions, now, limits.bundleTtl, id))
  }

  /** With no corpse left to purge, the sweep and the eviction follow at once and end the pass. */
  function DoReapOn(c: Control, t: TaskId, pending: seq<AgentInfo>, now: Time, limits: Limits, left: Contents): Control {
    if pending == [] then Finish(c.(store := left), t) else Go(c, t, Reaping(pending, false, now, limits))
  }

  function DoReapPurgeReturns(c: Control, t: TaskId, task: Task): Control
    requires task.Reaping? && task.pending != []
  {
    Go(c.(containers := Purged(c.containers, task.pending[0].id)), t, Reaping(task.pending, true, task.now, task.limits))
  }

  function DoReapAdvances(c: Control, t: TaskId, task: Task, left: Contents): Control
    requires task.Reaping? && task.pending != []
  {
    DoReapOn(c.(registry := Removed(c.registry, task.pending[0].id)), t, task.pending[1..], task.now, task.limits, left)
  }

  // ---- diagnostics routes

  function DoCaptureEnds(c: Control, t: TaskId, task: Task, bundle: Option<nat>, metaBytes: nat): Control
    requires task.Capturing?
  {
    if bundle.None? then Finish(c, t)
    else if task.writesMeta then Finish(c.(store := Archived(c.store, task.id, bundle, Meta(Some(c.clock), metaBytes))), t)
    else Finish(c.(store := WithBundle(c.store, task.id, bundle.value)), t)
  }

  // ---- startup

  function LiveOnes(listing: seq<AgentInfo>): seq<AgentInfo> {
    if listing == [] then []
    else if listing[|listing| - 1].state.Live? then LiveOnes(listing[..|listing| - 1]) + [listing[|listing| - 1]]
    else LiveOnes(listing[..|listing| - 1])
  }

  /** The running sessions a lease table leaves out: a later one on the same board overwrote them. */
  function LeftOut(leases: LeaseTable, containers: Containers): set<SessionId> {
    set id | id in containers && containers[id].state.Live?
             && !(containers[id].board in leases && leases[containers[id].board] == id)
  }

  /** The process dies with its memory; the containers and the store survive. */
  function DoRestart(c: Control, listing: seq<AgentInfo>): Control {
    c.(leases := RebuiltFrom(LiveOnes(listing)),
       registry := c.containers,
       tasks := map[],
       registered := c.registered + c.containers.Keys,
       stopFailed := {},
       dropped := LeftOut(RebuiltFrom(LiveOnes(listing)), c.containers))
  }

  // ---- the system

  ghost predicate Waits(c: Control, t: TaskId, stage: Stage) {
    t in c.tasks && c.tasks[t].Tearing? && c.tasks[t].stage == stage
  }

  ghost predicate IsReaping(c: Control, t: TaskId, removed: bool) {
    t in c.tasks && c.tasks[t].Reaping? && c.tasks[t].pending != [] && c.tasks[t].removed == removed
  }

  ghost predicate Enabled(c: Control, a: Action) {
    match a
    case Tick(now) => c.clock <= now
    case Crash(id, at) => Running(c.containers, id)
    case Create(t, id, board) => t !in c.tasks && id !in c.boards
    case StartReturns(t, logs) => t in c.tasks && c.tasks[t].Starting?
    case StartRaises(t) => t in c.tasks && c.tasks[t].Starting?
    case FreeAfterFailedStart(t) => t in c.tasks && c.tasks[t].StartFailed?
    case AgentAnswers(t) => t in c.tasks && c.tasks[t].Preparing?
    case AgentFails(t) => t in c.tasks && c.tasks[t].Preparing?
    case ArchiveEnds(t, bundle, metaBytes) => Waits(c, t, Archiving)
    case DevicesReleased(t) => Waits(c, t, ReleasingDevices)
    case StopReturns(t) => Waits(c, t, Stopping)
    case StopRaises(t) => Waits(c, t, Stopping)
    case LeaseFreed(t) => t in c.tasks && c.tasks[t].Tearing? && c.tasks[t].stage.Freeing?
    case SessionForgotten(t) => t in c.tasks && c.tasks[t].Tearing? && c.tasks[t].stage.Forgetting?
    case Delete(t, id, retain, purge) => t !in c.tasks
    case PurgeReturns(t) => t in c.tasks && c.tasks[t].Purging? && !c.tasks[t].removed
    case PurgeRaises(t) => t in c.tasks && c.tasks[t].Purging? && !c.tasks[t].removed
    case PurgeCompletes(t) => t in c.tasks && c.tasks[t].Purging? && c.tasks[t].removed
    case ReapBegins(t, page, limits, left) =>
      && t !in c.tasks
      && (forall i :: 0 <= i < |page| ==> page[i].id in c.registry && c.registry[page[i].id] == page[i])
      && (Doomed(page, c.clock, limits.corpseTtl) == [] ==> PassOutcome(c.store, left, c.registry, c.clock, limits))
    case ReapPurgeReturns(t) => IsReaping(c, t, false)
    case ReapPurgeRaises(t) => IsReaping(c, t, false)
    case ReapAdvances(t, left) =>
      && IsReaping(c, t, true)
      && (|c.tasks[t].pending| == 1 ==>
            PassOutcome(c.store, left, Removed(c.registry, c.tasks[t].pending[0].id), c.tasks[t].now, c.tasks[t].limits))
    case Capture(t, id, writesMeta) => t !in c.tasks && id in c.registry
    case CaptureEnds(t, bundle, metaBytes) => t in c.tasks && c.tasks[t].Capturing?
    case Restart(listing) => Lists(listing, c.containers)
  }

  ghost function Do(c: Control, a: Action): Control
    requires Enabled(c, a)
  {
    match a
    case Tick(now) => c.(clock := now)
    case Crash(id, at) => c.(containers := c.containers[id := c.containers[id].Died(at)])
    case Create(t, id, board) => DoCreate(c, t, id, board)
    case StartReturns(t, logs) => DoStartReturns(c, t, c.tasks[t], logs)
    case StartRaises(t) => Go(c, t, StartFailed(c.tasks[t].id, c.tasks[t].board))
    case FreeAfterFailedStart(t) => Finish(c.(leases := Released(c.leases, c.tasks[t].id)), t)
    case AgentAnswers(t) => DoAgentAnswers(c, t, c.tasks[t])
    case AgentFails(t) => DoAgentFails(c, t, c.tasks[t])
    case ArchiveEnds(t, bundle, metaBytes) => DoArchiveEnds(c, t, c.tasks[t], bundle, metaBytes)
    case DevicesReleased(t) => Go(c, t, c.tasks[t].(stage := Stopping))
    case StopReturns(t) => DoStopReturns(c, t, c.tasks[t])
    case StopRaises(t) => DoStopRaises(c, t, c.tasks[t])
    case LeaseFreed(t) => DoLeaseFreed(c, t, c.tasks[t])
    case SessionForgotten(t) => DoSessionForgotten(c, t, c.tasks[t])
    case Delete(t, id, retain, purge) => DoDelete(c, t, id, retain, purge)
    case PurgeReturns(t) => DoPurgeReturns(c, t, c.tasks[t])
    case PurgeRaises(t) => Finish(c, t)
    case PurgeCompletes(t) => DoPurgeCompletes(c, t, c.tasks[t])
    case ReapBegins(t, page, limits, left) => DoReapOn(c, t, Doomed(page, c.clock, limits.corpseTtl), c.clock, limits, left)
    case ReapPurgeReturns(t) => DoReapPurgeReturns(c, t, c.tasks[t])
    case ReapPurgeRaises(t) => Finish(c, t)
    case ReapAdvances(t, left) => DoReapAdvances(c, t, c.tasks[t], left)
    case Capture(t, id, writesMeta) => Go(c, t, Capturing(id, writesMeta))
    case CaptureEnds(t, bundle, metaBytes) => DoCaptureEnds(c, t, c.tasks[t], bundle, metaBytes)
    case Restart(listing) => DoRestart(c, listing)
  }

  /** Every action of the run can be taken where it is taken. */
  ghost predicate Feasible(c: Control, run: seq<Action>)
    decreases |run|
  {
    run == [] || (Enabled(c, run[0]) && Feasible(Do(c, run[0]), run[1..]))
  }

  ghost function Exec(c: Control, run: seq<Action>): Control
    requires Feasible(c, run)
    decreases |run|
  {
    if run == [] then c else Exec(Do(c, run[0]), run[1..])
  }

  /** Some run of the system, with whatever restarts, ends in this state. */
  ghost predicate Reachable(c: Control) {
    exists run :: Feasible(INITIAL, run) && Exec(INITIAL, run) == c
  }

  // ---- what the properties talk about

  predicate Holds(c: Control, id: SessionId, board: Board) {
    board in c.leases && c.leases[board] == id
  }

  ghost predicate BeingCreated(c: Control, id: SessionId) {
    exists t :: t in c.tasks && c.tasks[t].IsCreate() && c.tasks[t].id == id
  }

  ghost predicate BeingTornDown(c: Control, id: SessionId) {
    exists t :: t in c.tasks && c.tasks[t].Tearing? && c.tasks[t].id == id
  }

  /** No two running containers serve the same board. */
  ghost predicate RunningBoardsDistinct(c: Control) {
    forall x, y :: Running(c.containers, x) && Running(c.containers, y) && x != y ==> c.containers[x].board != c.containers[y].board
  }

  ghost predicate NoRestart(run: seq<Action>) {
    forall i :: 0 <= i < |run| ==> !run[i].Restart?
  }

  /** Restarts are taken only while no two running containers serve the same board. */
  ghost predicate RestartsSafely(c: Control, run: seq<Action>)
    requires Feasible(c, run)
    decreases |run|
  {
    run == []
    || ((run[0].Restart? ==> RunningBoardsDistinct(c)) && RestartsSafely(Do(c, run[0]), run[1..]))
  }
}
