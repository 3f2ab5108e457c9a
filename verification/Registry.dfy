/** The in-memory session registry: an insertion-ordered dictionary of agent records. */
module Registries {
  import opened AgentInfos
  import opened Wrappers

  type Sessions = map<SessionId, AgentInfo>

  function Added(sessions: Sessions, info: AgentInfo): Sessions {
    sessions[info.id := info]
  }

  function Removed(sessions: Sessions, id: SessionId): Sessions {
    sessions - {id}
  }

  function MarkedDead(sessions: Sessions, id: SessionId, endedAt: Time): Sessions {
    if id in sessions then sessions[id := sessions[id].Died(Some(endedAt))] else sessions
  }

  /** Where a slice bound falls in a list of length n: negative bounds count from the end. */
  function SliceBound(n: nat, bound: int): (b: nat)
    ensures b <= n
  {
    if bound < 0 then (if bound + n < 0 then 0 else bound + n)
    else if bound > n then n else bound
  }

  function Slice<T>(s: seq<T>, lo: int, hi: int): seq<T> {
    var from, to := SliceBound(|s|, lo), SliceBound(|s|, hi);
    if from <= to then s[from..to] else []
  }

  function Without(order: seq<SessionId>, id: SessionId): seq<SessionId> {
    if order == [] then []
    else if order[0] == id then Without(order[1..], id)
    else [order[0]] + Without(order[1..], id)
  }

  ghost predicate Distinct(order: seq<SessionId>) {
    forall i, j :: 0 <= i < j < |order| ==> order[i] != order[j]
  }

  lemma {:induction false} WithoutMembers(order: seq<SessionId>, id: SessionId)
    ensures forall x :: x in Without(order, id) <==> x in order && x != id
    ensures Distinct(order) ==> Distinct(Without(order, id))
  {
    if order != [] {
      WithoutMembers(order[1..], id);
      assert forall x :: x in order <==> x == order[0] || x in order[1..];
      if Distinct(order) {
        assert order[0] !in order[1..];
      }
    }
  }

  /** Forgetting an id leaves what stands before and after it in place. */
  lemma {:induction false} WithoutKeepsOrder(before: seq<SessionId>, id: SessionId, after: seq<SessionId>)
    requires id !in before && id !in after
    ensures Without(before + [id] + after, id) == before + after
    ensures Without(before + after, id) == before + after
  {
    if before != [] {
      assert (before + [id] + after)[1..] == before[1..] + [id] + after && (before + after)[1..] == before[1..] + after;
      WithoutKeepsOrder(before[1..], id, after);
    } else {
      assert [] + [id] + after == [id] + after && ([id] + after)[1..] == after;
      WithoutAbsent(after, id);
    }
  }

  lemma {:induction false} WithoutAbsent(order: seq<SessionId>, id: SessionId)
    requires id !in order
    ensures Without(order, id) == order
  {
    if order != [] {
      WithoutAbsent(order[1..], id);
    }
  }

  /** Slices with bounds from the front: no more than asked for, no more than there is, in place. */
  lemma SliceIs<T>(s: seq<T>, lo: nat, hi: nat)
    requires lo <= hi
    ensures var slice := Slice(s, lo, hi);
            && |slice| == (if hi <= |s| then hi - lo else if lo <= |s| then |s| - lo else 0)
            && forall k :: 0 <= k < |slice| ==> slice[k] == s[lo + k]
  {
  }

  /** Negative bounds count from the end: the last n elements, and all but the last n. */
  lemma SliceFromEnd<T>(s: seq<T>, n: int)
    requires 0 < n <= |s|
    ensures Slice(s, -n, |s|) == s[|s| - n..] && Slice(s, 0, -n) == s[..|s| - n]
  {
  }

  class SessionRegistry {
    var order: seq<SessionId>
    var sessions: Sessions
    var lastActivity: map<SessionId, Time>

    ghost predicate Valid()
      reads this
    {
      && Distinct(order)
      && (forall id :: id in order <==> id in sessions)
      && (forall id :: id in sessions ==> sessions[id].id == id)
    }

    constructor ()
      ensures Valid() && sessions == map[] && lastActivity == map[]
    {
      order, sessions, lastActivity := [], map[], map[];
    }

    method Add(info: AgentInfo)
      requires Valid()
      modifies this
      ensures Valid() && sessions == Added(old(sessions), info)
      ensures order == if info.id in old(sessions) then old(order) else old(order) + [info.id]
      ensures lastActivity == old(lastActivity)
    {
      if info.id !in sessions {
        order := order + [info.id];
      }
      sessions := sessions[info.id := info];
    }

    method Remove(id: SessionId)
      requires Valid()
      modifies this
      ensures Valid() && sessions == Removed(old(sessions), id)
      ensures order == Without(old(order), id)
      ensures lastActivity == old(lastActivity) - {id}
    {
      WithoutMembers(order, id);
      order := Without(order, id);
      sessions := sessions - {id};
      lastActivity := lastActivity - {id};
    }

    function Get(id: SessionId): (info: Option<AgentInfo>)
      reads this
    {
      if id in sessions then Some(sessions[id]) else None
    }

    /** Every registered record, in insertion order. */
    function All(): (all: seq<AgentInfo>)
      requires Valid()
      reads this
      ensures Lists(all, sessions)
      ensures |all| == |order| && forall i :: 0 <= i < |order| ==> order[i] in sessions && all[i] == sessions[order[i]]
    {
      var all := seq(|order|, i requires 0 <= i < |order| && Valid() reads this =>
        assert order[i] in order; sessions[order[i]]);
      assert forall i :: 0 <= i < |order| ==> order[i] in order && all[i].id == order[i];
      assert forall id :: id in sessions ==> id in order && sessions[id] in all by {
        forall id | id in sessions ensures sessions[id] in all {
          assert id in order;
          var i :| 0 <= i < |order| && order[i] == id;
          assert all[i] == sessions[id];
        }
      }
      all
    }

    method ListPage(offset: int, limit: int) returns (page: seq<AgentInfo>, total: nat)
      requires Valid()
      ensures page == Slice(All(), offset, offset + limit) && total == |sessions|
      ensures 0 <= offset && 0 <= limit ==>
                && |page| == (if offset + limit <= total then limit else if offset <= total then total - offset else 0)
                && forall k :: 0 <= k < |page| ==> offset + k < |order| && order[offset + k] in sessions && page[k] == sessions[order[offset + k]]
    {
      var allSessions := All();
      CountDistinct(order, sessions.Keys);
      total := |allSessions|;
      page := Slice(allSessions, offset, offset + limit);
      if 0 <= offset && 0 <= limit {
        SliceIs(allSessions, offset, offset + limit);
      }
    }

    method Touch(id: SessionId, now: Time)
      modifies this`lastActivity
      ensures lastActivity == old(lastActivity)[id := now]
    {
      lastActivity := lastActivity[id := now];
    }

    method MarkDead(id: SessionId, endedAt: Time)
      requires Valid()
      modifies this`sessions
      ensures Valid() && sessions == MarkedDead(old(sessions), id, endedAt)
    {
      if id in sessions {
        sessions := sessions[id := sessions[id].Died(Some(endedAt))];
      }
    }

    /** Startup: the registry becomes the launcher's listing. */
    method Rebuild(listing: seq<AgentInfo>, ghost containers: Sessions)
      requires Lists(listing, containers)
      modifies this
      ensures Valid() && sessions == containers && lastActivity == map[]
      ensures |order| == |listing| && forall i :: 0 <= i < |listing| ==> order[i] == listing[i].id
    {
      order := [];
      sessions := map[];
      for i := 0 to |listing|
        invariant |order| == i && forall j :: 0 <= j < i ==> order[j] == listing[j].id
        invariant forall id :: id in order <==> id in sessions
        invariant forall id :: id in sessions ==> id in containers && sessions[id] == containers[id]
        invariant forall j :: 0 <= j < i ==> listing[j].id in sessions
      {
        order := order + [listing[i].id];
        sessions := sessions[listing[i].id := listing[i]];
      }
      assert forall id :: id in containers ==> id in sessions by {
        forall id | id in containers ensures id in sessions {
          var j :| 0 <= j < |listing| && listing[j] == containers[id];
        }
      }
      assert sessions == containers;
      lastActivity := map[];
    }
  }

  lemma {:induction false} CountDistinct(order: seq<SessionId>, ids: set<SessionId>)
    requires Distinct(order) && forall id :: id in order <==> id in ids
    ensures |order| == |ids|
  {
    if order == [] {
      assert ids == {};
    } else {
      var rest := order[1..];
      assert forall id :: id in order <==> id == order[0] || id in rest;
      CountDistinct(rest, ids - {order[0]});
    }
  }

  /** A page never shows a record that is not registered. */
  lemma PageIsRegistered(all: seq<AgentInfo>, sessions: Sessions, offset: int, limit: int)
    requires Lists(all, sessions)
    ensures forall info :: info in Slice(all, offset, offset + limit) ==> info.id in sessions && sessions[info.id] == info
  {
  }

  /** A page large enough for the registry shows every record. */
  lemma LargePageIsComplete(all: seq<AgentInfo>, sessions: Sessions, limit: int)
    requires Lists(all, sessions) && |sessions| <= limit
    ensures Slice(all, 0, 0 + limit) == all
  {
    var ids := seq(|all|, i requires 0 <= i < |all| => all[i].id);
    forall id ensures id in ids <==> id in sessions {
      if id in sessions {
        var i :| 0 <= i < |all| && all[i] == sessions[id];
        assert ids[i] == id;
      }
    }
    CountDistinct(ids, sessions.Keys);
    assert |sessions.Keys| == |sessions|;
  }
}
