/** The frozen per-session record that the launcher, the registry and the lease table share. */
module AgentInfos {
  import opened Wrappers

  type Board = string

  // A session id is "s-" followed by eight lower-case hexadecimal digits, so the order of
  // the strings is the order of the numbers they spell.  The model keeps the number.
  type SessionId = nat

  // Clock readings.  Only their order and their differences matter.
  type Time = int

  datatype Vitality = Live | Dead

  datatype AgentInfo = AgentInfo(id: SessionId, board: Board, state: Vitality, endedAt: Option<Time>) {
    /** The record a launcher returns for a container it has just started. */
    static function Fresh(id: SessionId, board: Board): AgentInfo {
      AgentInfo(id, board, Live, None)
    }

    function Died(at: Option<Time>): AgentInfo {
      this.(state := Dead, endedAt := at)
    }
  }

  /** A listing of sessions names each session once. */
  ghost predicate DistinctIds(listing: seq<AgentInfo>) {
    forall i, j :: 0 <= i < j < |listing| ==> listing[i].id != listing[j].id
  }

  /** The listing is the content of the map, in some order. */
  ghost predicate Lists(listing: seq<AgentInfo>, sessions: map<SessionId, AgentInfo>) {
    && DistinctIds(listing)
    && (forall i :: 0 <= i < |listing| ==> listing[i].id in sessions && sessions[listing[i].id] == listing[i])
    && (forall id :: id in sessions ==> sessions[id] in listing && sessions[id].id == id)
  }
}
