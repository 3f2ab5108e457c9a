/** Board leases: at most one session holds a board. */
module Leases {
  import opened AgentInfos
  import opened Wrappers

  type LeaseTable = map<Board, SessionId>

  function Acquired(leases: LeaseTable, board: Board, id: SessionId): LeaseTable {
    if board in leases then leases else leases[board := id]
  }

  function Released(leases: LeaseTable, id: SessionId): LeaseTable {
    map board | board in leases && leases[board] != id :: leases[board]
  }

  /** The dictionary comprehension over a listing: a later session overwrites an earlier one. */
  function RebuiltFrom(sessions: seq<AgentInfo>): LeaseTable {
    if sessions == [] then map[]
    else
      var last := sessions[|sessions| - 1];
      RebuiltFrom(sessions[..|sessions| - 1])[last.board := last.id]
  }

  /** A lease in a rebuilt table belongs to some listed session, and every listed board is leased. */
  lemma {:induction false} RebuiltLeaseIsListed(sessions: seq<AgentInfo>, board: Board)
    ensures board in RebuiltFrom(sessions) <==> exists i :: 0 <= i < |sessions| && sessions[i].board == board
    ensures board in RebuiltFrom(sessions) ==>
              exists i :: 0 <= i < |sessions| && sessions[i].board == board && sessions[i].id == RebuiltFrom(sessions)[board]
  {
    if sessions != [] {
      var n := |sessions| - 1;
      var init := sessions[..n];
      RebuiltLeaseIsListed(init, board);
      assert forall i :: 0 <= i < n ==> init[i] == sessions[i];
      if board == sessions[n].board {
        assert sessions[n].id == RebuiltFrom(sessions)[board];
      } else if board in RebuiltFrom(init) {
        var i :| 0 <= i < n && init[i].board == board && init[i].id == RebuiltFrom(init)[board];
        assert sessions[i].board == board && sessions[i].id == RebuiltFrom(sessions)[board];
      }
    }
  }

  /** Of the sessions listed for a board the last one gets the lease. */
  lemma {:induction false} LastListedIsLeased(sessions: seq<AgentInfo>, i: nat)
    requires i < |sessions| && forall j :: i < j < |sessions| ==> sessions[j].board != sessions[i].board
    ensures sessions[i].board in RebuiltFrom(sessions) && RebuiltFrom(sessions)[sessions[i].board] == sessions[i].id
  {
    if i < |sessions| - 1 {
      LastListedIsLeased(sessions[..|sessions| - 1], i);
    }
  }

  ghost predicate DistinctBoards(sessions: seq<AgentInfo>) {
    forall i, j :: 0 <= i < j < |sessions| ==> sessions[i].board != sessions[j].board
  }

  /** The comprehension drops no session exactly when no two sessions name the same board. */
  lemma RebuildDropsNothingIff(sessions: seq<AgentInfo>)
    requires DistinctIds(sessions)
    ensures (forall i :: 0 <= i < |sessions| ==>
               sessions[i].board in RebuiltFrom(sessions) && RebuiltFrom(sessions)[sessions[i].board] == sessions[i].id)
            <==> DistinctBoards(sessions)
  {
    var rebuilt := RebuiltFrom(sessions);
    if DistinctBoards(sessions) {
      forall i | 0 <= i < |sessions|
        ensures sessions[i].board in rebuilt && rebuilt[sessions[i].board] == sessions[i].id
      {
        RebuiltLeaseIsListed(sessions, sessions[i].board);
        var j :| 0 <= j < |sessions| && sessions[j].board == sessions[i].board && sessions[j].id == rebuilt[sessions[i].board];
        assert i == j;
      }
    }
  }

  class BoardLease {
    var leases: LeaseTable

    constructor ()
      ensures leases == map[]
    {
      leases := map[];
    }

    method Acquire(board: Board, id: SessionId) returns (acquired: bool)
      modifies this
      ensures acquired == (board !in old(leases))
      ensures leases == Acquired(old(leases), board, id)
      ensures board in leases && leases[board] == (if acquired then id else old(leases)[board])
      ensures forall other :: other != board ==> (other in leases <==> other in old(leases)) && (other in leases ==> leases[other] == old(leases)[other])
    {
      if board in leases {
        return false;
      }
      leases := leases[board := id];
      return true;
    }

    method Release(id: SessionId)
      modifies this
      ensures leases == Released(old(leases), id)
    {
      var toRemove := set board | board in leases && leases[board] == id;
      ghost var all := toRemove;
      while toRemove != {}
        invariant toRemove <= all
        invariant leases == old(leases) - (all - toRemove)
      {
        var board :| board in toRemove;
        leases := leases - {board};
        toRemove := toRemove - {board};
      }
    }

    method RebuildFrom(sessions: seq<AgentInfo>)
      modifies this
      ensures leases == RebuiltFrom(sessions)
    {
      var rebuilt: LeaseTable := map[];
      for i := 0 to |sessions|
        invariant rebuilt == RebuiltFrom(sessions[..i])
      {
        assert sessions[..i + 1][..i] == sessions[..i];
        rebuilt := rebuilt[sessions[i].board := sessions[i].id];
      }
      assert sessions[..|sessions|] == sessions;
      leases := rebuilt;
    }

    function HeldBy(board: Board): (holder: Option<SessionId>)
      reads this
    {
      if board in leases then Some(leases[board]) else None
    }
  }

  /** Releasing a session frees exactly its own boards: a late release cannot free another session's lease. */
  lemma ReleaseFreesOnlyItsOwn(leases: LeaseTable, id: SessionId, board: Board)
    ensures board in Released(leases, id) <==> board in leases && leases[board] != id
    ensures board in Released(leases, id) ==> Released(leases, id)[board] == leases[board]
  {
  }
}
