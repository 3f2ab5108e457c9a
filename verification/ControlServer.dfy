/**
 * The handlers themselves, as methods on the live components: one method for each stretch of code
 * between two awaits.  Every method takes exactly the step of the transition system it is named after.
 */
module ControlServers {
  import opened AgentInfos
  import opened ControlPlane
  import opened Launchers
  import opened Leases
  import opened Registries
  import opened Reapers
  import opened Stores
  import opened Wrappers

  const REAPER_PAGE := 10_000

  // What DELETE answers, or goes on to do.
  datatype DeleteReply = UnknownSession | RetainAndPurge | StillRetained | Purges | TearsDown

  class ControlServer {
    const lease: BoardLease
    const registry: SessionRegistry
    const launcher: FakeLauncher
    const store: DiagnosticsStore
    var tasks: map<TaskId, Task>
    var clock: Time
    ghost var boards: map<SessionId, Board>
    ghost var registered: set<SessionId>
    ghost var stopFailed: set<SessionId>
    ghost var dropped: set<SessionId>

    ghost predicate Valid()
      reads this, registry
    {
      registry.Valid()
    }

    ghost function View(): Control
      reads this, lease, registry, launcher, store
    {
      Control(lease.leases, registry.sessions, launcher.sessions, store.contents, tasks, clock, boards, registered, stopFailed, dropped)
    }

    constructor ()
      ensures Valid() && View() == INITIAL
      ensures fresh(lease) && fresh(registry) && fresh(launcher) && fresh(store)
    {
      lease := new BoardLease();
      registry := new SessionRegistry();
      launcher := new FakeLauncher();
      store := new DiagnosticsStore();
      tasks, clock, boards, registered, stopFailed, dropped := map[], 0, map[], {}, {}, {};
    }

    // ---- create_session

    method CreateSession(t: TaskId, id: SessionId, board: Board) returns (acquired: bool, holder: Option<SessionId>)
      requires Valid() && Enabled(View(), Create(t, id, board))
      modifies this, lease
      ensures Valid() && View() == Do(old(View()), Create(t, id, board))
      ensures acquired == (board !in old(lease.leases))
      ensures !acquired ==> holder == Some(old(View()).leases[board])
    {
      holder := None;
      acquired := lease.Acquire(board, id);
      if !acquired {
        holder := lease.HeldBy(board);
        return;
      }
      boards := boards[id := board];
      tasks := tasks[t := Starting(id, board)];
    }

    method LauncherStarts(t: TaskId, logs: Option<nat>)
      requires Valid() && Enabled(View(), StartReturns(t, logs))
      modifies this, launcher, store
      ensures Valid() && View() == Do(old(View()), StartReturns(t, logs))
    {
      var task := tasks[t];
      if logs.Some? {
        store.contents := store.contents[task.id := Entry(Some(Meta(None, 0)), None, logs.value)];
      }
      var info, port := launcher.Start(task.id, task.board);
      tasks := tasks[t := Preparing(task.id, task.board, Polling)];
    }

    method LauncherRefuses(t: TaskId)
      requires Valid() && Enabled(View(), StartRaises(t))
      modifies this
      ensures Valid() && View() == Do(old(View()), StartRaises(t))
    {
      tasks := tasks[t := StartFailed(tasks[t].id, tasks[t].board)];
    }

    method ReleaseAfterFailedStart(t: TaskId)
      requires Valid() && Enabled(View(), FreeAfterFailedStart(t))
      modifies this, lease
      ensures Valid() && View() == Do(old(View()), FreeAfterFailedStart(t))
    {
      lease.Release(tasks[t].id);
      tasks := tasks - {t};
    }

    /** A healthy answer moves on to the next request; the boot ticket registers the session. */
    method AgentAccepts(t: TaskId)
      requires Valid() && Enabled(View(), AgentAnswers(t))
      modifies this, registry
      ensures Valid() && View() == Do(old(View()), AgentAnswers(t))
      ensures old(tasks[t].phase).Booting? ==> registry.Get(old(tasks[t].id)) == Some(AgentInfo.Fresh(old(tasks[t].id), old(tasks[t].board)))
      ensures registry.lastActivity
              == if old(tasks[t].phase).Booting? then old(registry.lastActivity)[old(tasks[t].id) := clock] else old(registry.lastActivity)
    {
      var task := tasks[t];
      match task.phase
      case Polling => tasks := tasks[t := task.(phase := Configuring)];
      case Configuring => tasks := tasks[t := task.(phase := Booting)];
      case Booting =>
        registry.Add(AgentInfo.Fresh(task.id, task.board));
        registry.Touch(task.id, clock);
        registered := registered + {task.id};
        tasks := tasks - {t};
    }

    /** The failure paths of create_session share one unwind. */
    method Unwind(t: TaskId)
      requires Valid() && Enabled(View(), AgentFails(t))
      modifies this, registry
      ensures Valid() && View() == Do(old(View()), AgentFails(t))
    {
      var task := tasks[t];
      registry.Add(AgentInfo.Fresh(task.id, task.board));
      registered := registered + {task.id};
      tasks := tasks[t := Tearing(task.id, true, clock, Archiving)];
    }

    // ---- teardown_session

    /** Writes whatever bundle was captured, then the metadata. */
    method ArchiveBundle(t: TaskId, chunks: Option<seq<nat>>, metaBytes: nat) returns (ghost bundle: Option<nat>)
      requires Valid() && Waits(View(), t, Archiving)
      modifies this, store
      ensures bundle == if chunks.Some? then Some(Sum(chunks.value)) else None
      ensures Valid() && View() == Do(old(View()), ArchiveEnds(t, bundle, metaBytes))
    {
      var task := tasks[t];
      bundle := None;
      if chunks.Some? {
        var written := store.WriteBundle(task.id, chunks.value);
        bundle := Some(written);
      }
      store.WriteMeta(task.id, Meta(Some(task.endedAt), metaBytes));
      tasks := tasks[t := task.(stage := ReleasingDevices)];
    }

    method ReleaseDevices(t: TaskId)
      requires Valid() && Enabled(View(), DevicesReleased(t))
      modifies this
      ensures Valid() && View() == Do(old(View()), DevicesReleased(t))
    {
      tasks := tasks[t := tasks[t].(stage := Stopping)];
    }

    /** launcher.stop either returns or raises; both lead to the finally block. */
    method StopContainer(t: TaskId, raises: bool)
      requires Valid() && Waits(View(), t, Stopping)
      modifies this, launcher
      ensures Valid() && View() == Do(old(View()), if raises then StopRaises(t) else StopReturns(t))
    {
      var task := tasks[t];
      var stopFailedHere := false;
      if raises {
        stopFailedHere := true;
        stopFailed := stopFailed + {task.id};
      } else {
        launcher.Stop(task.id, !task.retain, clock);
      }
      tasks := tasks[t := task.(stage := Freeing(stopFailedHere))];
    }

    method FreeBoard(t: TaskId)
      requires Valid() && Enabled(View(), LeaseFreed(t))
      modifies this, lease
      ensures Valid() && View() == Do(old(View()), LeaseFreed(t))
    {
      var task := tasks[t];
      lease.Release(task.id);
      tasks := tasks[t := task.(stage := Forgetting(task.stage.stopFailed))];
    }

    method ForgetSession(t: TaskId)
      requires Valid() && Enabled(View(), SessionForgotten(t))
      modifies this, registry
      ensures Valid() && View() == Do(old(View()), SessionForgotten(t))
    {
      var task := tasks[t];
      if task.retain || task.stage.stopFailed {
        registry.MarkDead(task.id, task.endedAt);
      } else {
        registry.Remove(task.id);
      }
      tasks := tasks - {t};
    }

    // ---- delete_session

    method DeleteSession(t: TaskId, id: SessionId, retain: bool, purge: bool) returns (reply: DeleteReply)
      requires Valid() && Enabled(View(), Delete(t, id, retain, purge))
      modifies this
      ensures Valid() && View() == Do(old(View()), Delete(t, id, retain, purge))
      ensures reply.UnknownSession? <==> id !in registry.sessions
      ensures reply.RetainAndPurge? <==> id in registry.sessions && retain && purge
      ensures reply.TearsDown? <==> t in tasks && tasks[t].Tearing?
      ensures reply.TearsDown? ==> tasks[t].id == id && tasks[t].retain == retain && tasks[t].endedAt == clock && registry.sessions[id].state.Live?
      ensures reply.Purges? <==> t in tasks && tasks[t].Purging?
      ensures reply.Purges? ==> tasks[t].id == id && !retain && registry.sessions[id].state.Dead?
      ensures reply.StillRetained? ==> retain && registry.sessions[id].state.Dead?
    {
      var info := registry.Get(id);
      if info.None? {
        return UnknownSession;
      }
      if retain && purge {
        return RetainAndPurge;
      }
      if info.value.state.Dead? {
        if retain {
          return StillRetained;
        }
        tasks := tasks[t := Purging(id, false)];
        return Purges;
      }
      tasks := tasks[t := Tearing(id, retain, clock, Archiving)];
      return TearsDown;
    }

    method PurgeContainer(t: TaskId)
      requires Valid() && Enabled(View(), PurgeReturns(t))
      modifies this, launcher
      ensures Valid() && View() == Do(old(View()), PurgeReturns(t))
    {
      launcher.Purge(tasks[t].id);
      tasks := tasks[t := Purging(tasks[t].id, true)];
    }

    method CompletePurge(t: TaskId)
      requires Valid() && Enabled(View(), PurgeCompletes(t))
      modifies this, store, registry
      ensures Valid() && View() == Do(old(View()), PurgeCompletes(t))
    {
      store.Delete(tasks[t].id);
      registry.Remove(tasks[t].id);
      tasks := tasks - {t};
    }

    // ---- reap_once

    /** The next corpse to purge, or, with none left, the sweep and the eviction. */
    method ReapOn(t: TaskId, pending: seq<AgentInfo>, now: Time, limits: Limits)
      requires Valid()
      modifies this`tasks, store
      ensures Valid() && View() == DoReapOn(old(View()), t, pending, now, limits, store.contents)
      ensures pending == [] ==> PassOutcome(old(store.contents), store.contents, registry.sessions, now, limits)
    {
      if pending == [] {
        var bundles, bytes := ReapBundles(store, registry, now, limits.bundleTtl, limits.maxBytes);
        tasks := tasks - {t};
      } else {
        tasks := tasks[t := Reaping(pending, false, now, limits)];
      }
    }

    /** Takes one page of the registry and keeps the corpses past their time to live. */
    method BeginReaping(t: TaskId, limits: Limits) returns (ghost page: seq<AgentInfo>)
      requires Valid() && t !in tasks
      modifies this, store
      ensures page == Slice(old(registry.All()), 0, 10_000)
      ensures |old(registry.sessions)| <= 10_000 ==> page == old(registry.All())
      ensures Enabled(old(View()), ReapBegins(t, page, limits, store.contents))
      ensures Valid() && View() == Do(old(View()), ReapBegins(t, page, limits, store.contents))
    {
      var listed := TakePage();
      page := listed;
      var pending := FindCorpses(listed, clock, limits.corpseTtl);
      ReapOn(t, pending, clock, limits);
    }

    /** The page shows registered records only, and all of them unless there are more than it holds. */
    method TakePage() returns (page: seq<AgentInfo>)
      requires Valid()
      ensures page == Slice(registry.All(), 0, REAPER_PAGE)
      ensures forall i :: 0 <= i < |page| ==> page[i].id in registry.sessions && registry.sessions[page[i].id] == page[i]
      ensures |registry.sessions| <= REAPER_PAGE ==> page == registry.All()
    {
      var total: nat;
      page, total := registry.ListPage(0, REAPER_PAGE);
      PageIsRegistered(registry.All(), registry.sessions, 0, REAPER_PAGE);
      assert forall i :: 0 <= i < |page| ==> page[i] in page;
      if |registry.sessions| <= REAPER_PAGE {
        LargePageIsComplete(registry.All(), registry.sessions, REAPER_PAGE);
      }
    }

    method FindCorpses(listed: seq<AgentInfo>, now: Time, ttl: Time) returns (pending: seq<AgentInfo>)
      ensures pending == Doomed(listed, now, ttl)
    {
      pending := [];
      for i := 0 to |listed|
        invariant pending == Doomed(listed[..i], now, ttl)
      {
        assert listed[..i + 1][..i] == listed[..i];
        var info := listed[i];
        if info.state.Live? || info.endedAt.None? {
          continue;
        }
        var age := now - info.endedAt.value;
        if age <= ttl {
          continue;
        }
        pending := pending + [info];
      }
      assert listed[..|listed|] == listed;
    }

    method PurgeCorpse(t: TaskId)
      requires Valid() && Enabled(View(), ReapPurgeReturns(t))
      modifies this, launcher
      ensures Valid() && View() == Do(old(View()), ReapPurgeReturns(t))
    {
      var task := tasks[t];
      launcher.Purge(task.pending[0].id);
      tasks := tasks[t := Reaping(task.pending, true, task.now, task.limits)];
    }

    method ForgetCorpse(t: TaskId)
      requires Valid() && IsReaping(View(), t, true)
      modifies this, registry, store
      ensures Enabled(old(View()), ReapAdvances(t, store.contents))
      ensures Valid() && View() == Do(old(View()), ReapAdvances(t, store.contents))
    {
      var task := tasks[t];
      registry.Remove(task.pending[0].id);
      ReapOn(t, task.pending[1..], task.now, task.limits);
    }

    /** A purge that raises ends the handler, or the reaper's pass, at once. */
    method PurgeRefused(t: TaskId)
      requires Valid() && (Enabled(View(), PurgeRaises(t)) || Enabled(View(), ReapPurgeRaises(t)))
      modifies this
      ensures Valid() && View() == Finish(old(View()), t)
    {
      tasks := tasks - {t};
    }

    // ---- lifespan

    /** A restarted process: empty memory, then the registry and the leases from the launcher's listing. */
    method Startup() returns (ghost listing: seq<AgentInfo>)
      requires Valid() && forall id :: id in launcher.sessions ==> launcher.sessions[id].id == id
      modifies this, lease, registry
      ensures Lists(listing, old(launcher.sessions))
      ensures Valid() && View() == Do(old(View()), Restart(listing))
    {
      listing := RebuildTables();
      tasks := map[];
      registered := registered + launcher.sessions.Keys;
      stopFailed := {};
      dropped := LeftOut(lease.leases, launcher.sessions);
    }

    method RebuildTables() returns (ghost listing: seq<AgentInfo>)
      requires forall id :: id in launcher.sessions ==> launcher.sessions[id].id == id
      modifies lease, registry
      ensures Lists(listing, launcher.sessions)
      ensures Valid() && registry.sessions == launcher.sessions
      ensures lease.leases == RebuiltFrom(LiveOnes(listing))
    {
      var existing := launcher.ListSessions();
      listing := existing;
      registry.Rebuild(existing, launcher.sessions);
      var live := LiveOnes(existing);
      lease.RebuildFrom(live);
    }
  }
}
