/** The in-memory launcher: the container semantics every other component is proved against. */
module Launchers {
  import opened AgentInfos
  import opened Wrappers

  type Containers = map<SessionId, AgentInfo>

  function Started(containers: Containers, id: SessionId, board: Board): Containers {
    containers[id := AgentInfo.Fresh(id, board)]
  }

  function Stopped(containers: Containers, id: SessionId, remove: bool, now: Time): Containers {
    if remove then containers - {id}
    else if id in containers then containers[id := containers[id].Died(Some(now))]
    else containers
  }

  function Purged(containers: Containers, id: SessionId): Containers {
    containers - {id}
  }

  predicate Running(containers: Containers, id: SessionId) {
    id in containers && containers[id].state.Live?
  }

  /** A stop that returns leaves the session not running, and touches no other session. */
  lemma StopStops(containers: Containers, id: SessionId, remove: bool, now: Time)
    ensures !Running(Stopped(containers, id, remove, now), id)
    ensures remove ==> id !in Stopped(containers, id, remove, now)
    ensures forall other :: other != id ==>
              (other in Stopped(containers, id, remove, now) <==> other in containers)
              && (other in containers ==> Stopped(containers, id, remove, now)[other] == containers[other])
  {
  }

  const FIRST_PORT: nat := 18000

  class FakeLauncher {
    var sessions: Containers
    var nextPort: nat

    constructor ()
      ensures sessions == map[] && nextPort == 18000
    {
      sessions, nextPort := map[], FIRST_PORT;
    }

    method Start(id: SessionId, board: Board) returns (info: AgentInfo, port: nat)
      modifies this
      ensures info == AgentInfo.Fresh(id, board) && port == old(nextPort) && nextPort == port + 1
      ensures sessions == Started(old(sessions), id, board)
    {
      port := nextPort;
      nextPort := nextPort + 1;
      info := AgentInfo.Fresh(id, board);
      sessions := sessions[id := info];
    }

    method Stop(id: SessionId, remove: bool, now: Time)
      modifies this`sessions
      ensures sessions == Stopped(old(sessions), id, remove, now)
    {
      if remove {
        sessions := sessions - {id};
        return;
      }
      if id in sessions {
        sessions := sessions[id := sessions[id].Died(Some(now))];
      }
    }

    method Purge(id: SessionId)
      modifies this`sessions
      ensures sessions == Purged(old(sessions), id)
    {
      sessions := sessions - {id};
    }

    method ListSessions() returns (listing: seq<AgentInfo>)
      requires forall id :: id in sessions ==> sessions[id].id == id
      ensures Lists(listing, sessions)
    {
      listing := [];
      var left := sessions.Keys;
      while left != {}
        invariant left <= sessions.Keys
        invariant DistinctIds(listing)
        invariant forall i :: 0 <= i < |listing| ==> listing[i].id in sessions.Keys - left && sessions[listing[i].id] == listing[i]
        invariant forall id :: id in sessions && id !in left ==> sessions[id] in listing
      {
        var id :| id in left;
        listing := listing + [sessions[id]];
        left := left - {id};
      }
    }
  }
}
