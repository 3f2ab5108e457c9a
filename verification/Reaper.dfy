/** The time-to-live sweep and the oldest-first eviction of archived diagnostics. */
module Reapers {
  import opened AgentInfos
  import opened Registries
  import opened Sortings
  import opened Stores
  import opened Wrappers

  type Candidate = (Time, SessionId)

  predicate LiveIn(sessions: Sessions, id: SessionId) {
    id in sessions && sessions[id].state.Live?
  }

  /** A directory the reaper may delete: its session is not live and its metadata records a death. */
  predicate Reapable(store: Contents, sessions: Sessions, id: SessionId) {
    !LiveIn(sessions, id) && EndedAt(store, id).Some?
  }

  predicate Expired(store: Contents, sessions: Sessions, now: Time, ttl: Time, id: SessionId) {
    Reapable(store, sessions, id) && now - EndedAt(store, id).value > ttl
  }

  function ExpiredIds(store: Contents, sessions: Sessions, now: Time, ttl: Time): set<SessionId> {
    set id | id in store && Expired(store, sessions, now, ttl, id)
  }

  function IdsOf(aged: seq<Candidate>): set<SessionId> {
    set candidate | candidate in aged :: candidate.1
  }

  /** The remaining candidates are exactly the reapable directories, each with its time of death. */
  ghost predicate ListsReapable(aged: seq<Candidate>, store: Contents, sessions: Sessions) {
    && (forall i :: 0 <= i < |aged| ==> Reapable(store, sessions, aged[i].1) && EndedAt(store, aged[i].1) == Some(aged[i].0))
    && (forall i, j :: 0 <= i < j < |aged| ==> aged[i].1 != aged[j].1)
    && (forall id :: id in store && Reapable(store, sessions, id) ==> id in IdsOf(aged))
  }

  /** Order of the pairs (ended_at, session id), as the sort compares them. */
  predicate NoLater(a: Candidate, b: Candidate) {
    a.0 < b.0 || (a.0 == b.0 && a.1 <= b.1)
  }

  function ByDeath(aged: seq<Candidate>): seq<Candidate> {
    Sorted(aged, NoLater)
  }

  /** The candidates in order of death, then id, none added or lost. */
  lemma ByDeathIsOrdered(aged: seq<Candidate>)
    ensures Ordered(ByDeath(aged), NoLater) && multiset(ByDeath(aged)) == multiset(aged) && |ByDeath(aged)| == |aged|
  {
    SortIsOrdered(aged, NoLater);
  }

  lemma SortedHasSameIds(aged: seq<Candidate>)
    ensures IdsOf(ByDeath(aged)) == IdsOf(aged)
  {
    ByDeathIsOrdered(aged);
    assert forall x :: x in ByDeath(aged) <==> x in multiset(ByDeath(aged));
    assert forall x :: x in aged <==> x in multiset(aged);
  }

  // The variables of the sweep's loop.
  datatype Sweep = Sweep(contents: Contents, bundles: nat, reclaimed: int, remaining: seq<Candidate>)

  /** The sweep after it has looked at the directories in seen. */
  ghost predicate SweptUpTo(before: Contents, sessions: Sessions, expired: set<SessionId>, seen: set<SessionId>, sweep: Sweep) {
    && sweep.contents == before - (expired * seen)
    && sweep.bundles == |expired * seen|
    && sweep.reclaimed == TotalBytes(before) - TotalBytes(sweep.contents)
    && ListsSeen(before, sessions, expired, seen, sweep.remaining)
  }

  ghost predicate ListsSeen(before: Contents, sessions: Sessions, expired: set<SessionId>, seen: set<SessionId>,
                            remaining: seq<Candidate>)
  {
    && DistinctCandidates(remaining)
    && (forall k :: 0 <= k < |remaining| ==>
          remaining[k].1 in seen - expired
          && Reapable(before, sessions, remaining[k].1) && EndedAt(before, remaining[k].1) == Some(remaining[k].0))
    && (forall id :: id in seen - expired && Reapable(before, sessions, id) ==> id in IdsOf(remaining))
  }

  /** One iteration of the sweep. */
  function SweepOne(sweep: Sweep, sessions: Sessions, now: Time, ttl: Time, id: SessionId): Sweep {
    var endedAt := EndedAt(sweep.contents, id);
    if LiveIn(sessions, id) || endedAt.None? then sweep
    else if now - endedAt.value > ttl then
      Sweep(sweep.contents - {id}, sweep.bundles + 1, sweep.reclaimed + SessionBytes(sweep.contents, id), sweep.remaining)
    else sweep.(remaining := sweep.remaining + [(endedAt.value, id)])
  }

  function SweepAll(before: Contents, sessions: Sessions, now: Time, ttl: Time, ids: seq<SessionId>): Sweep {
    if ids == [] then Sweep(before, 0, 0, [])
    else
      var n := |ids| - 1;
      SweepOne(SweepAll(before, sessions, now, ttl, ids[..n]), sessions, now, ttl, ids[n])
  }

  lemma SweepDeletes(before: Contents, expired: set<SessionId>, seen: set<SessionId>, id: SessionId)
    requires id in expired && id in before && id !in seen
    ensures before - (expired * seen) - {id} == before - (expired * (seen + {id}))
    ensures |expired * (seen + {id})| == |expired * seen| + 1
    ensures SessionBytes(before - (expired * seen), id)
            == TotalBytes(before - (expired * seen)) - TotalBytes(before - (expired * (seen + {id})))
  {
    assert expired * (seen + {id}) == expired * seen + {id};
    assert before - (expired * seen) - {id} == before - (expired * (seen + {id}));
    TotalWithout(before - (expired * seen), id);
  }

  lemma SeenGrows(before: Contents, sessions: Sessions, expired: set<SessionId>, seen: set<SessionId>,
                  remaining: seq<Candidate>, id: SessionId)
    requires ListsSeen(before, sessions, expired, seen, remaining) && id !in expired && id !in seen
    ensures ListsSeen(before, sessions, expired, seen + {id},
                      if Reapable(before, sessions, id) then remaining + [(EndedAt(before, id).value, id)] else remaining)
  {
    if Reapable(before, sessions, id) {
      var next := remaining + [(EndedAt(before, id).value, id)];
      assert next[|remaining|] in next;
      assert forall c :: c in remaining ==> c in next;
    }
  }

  lemma SweepOneKeeps(before: Contents, sessions: Sessions, now: Time, ttl: Time, seen: set<SessionId>, sweep: Sweep, id: SessionId)
    requires SweptUpTo(before, sessions, ExpiredIds(before, sessions, now, ttl), seen, sweep)
    requires id in before && id !in seen
    ensures SweptUpTo(before, sessions, ExpiredIds(before, sessions, now, ttl), seen + {id}, SweepOne(sweep, sessions, now, ttl, id))
  {
    var expired := ExpiredIds(before, sessions, now, ttl);
    var next := SweepOne(sweep, sessions, now, ttl, id);
    assert EndedAt(sweep.contents, id) == EndedAt(before, id);
    if id in expired {
      SweepDeletes(before, expired, seen, id);
      assert seen + {id} - expired == seen - expired;
    } else {
      assert expired * (seen + {id}) == expired * seen;
      SeenGrows(before, sessions, expired, seen, sweep.remaining, id);
    }
  }

  function SetOf(ids: seq<SessionId>): set<SessionId> {
    set id | id in ids
  }

  lemma SetOfSnoc(ids: seq<SessionId>)
    requires Distinct(ids) && ids != []
    ensures var n := |ids| - 1; ids[n] !in SetOf(ids[..n]) && SetOf(ids) == SetOf(ids[..n]) + {ids[n]}
  {
    assert ids == ids[..|ids| - 1] + [ids[|ids| - 1]];
  }

  lemma {:induction false} SweepAllKeeps(before: Contents, sessions: Sessions, now: Time, ttl: Time, ids: seq<SessionId>)
    requires Distinct(ids) && SetOf(ids) <= before.Keys
    ensures SweptUpTo(before, sessions, ExpiredIds(before, sessions, now, ttl), SetOf(ids), SweepAll(before, sessions, now, ttl, ids))
  {
    if ids == [] {
      assert before - (ExpiredIds(before, sessions, now, ttl) * {}) == before;
    } else {
      var n := |ids| - 1;
      SetOfSnoc(ids);
      assert ids[n] in SetOf(ids);
      SweepAllKeeps(before, sessions, now, ttl, ids[..n]);
      SweepOneKeeps(before, sessions, now, ttl, SetOf(ids[..n]), SweepAll(before, sessions, now, ttl, ids[..n]), ids[n]);
    }
  }

  lemma SeenAll(before: Contents, sessions: Sessions, expired: set<SessionId>, remaining: seq<Candidate>)
    requires ListsSeen(before, sessions, expired, before.Keys, remaining)
    ensures ListsReapable(remaining, before - expired, sessions)
  {
    forall id | id !in expired ensures EndedAt(before - expired, id) == EndedAt(before, id) {
    }
  }

  /** Whatever order the directories come in, the sweep deletes the expired ones and keeps the other candidates. */
  lemma SweepAllMeans(before: Contents, sessions: Sessions, now: Time, ttl: Time, ids: seq<SessionId>)
    requires Distinct(ids) && SetOf(ids) == before.Keys
    ensures var sweep := SweepAll(before, sessions, now, ttl, ids);
            && sweep.contents == before - ExpiredIds(before, sessions, now, ttl)
            && sweep.bundles == |ExpiredIds(before, sessions, now, ttl)|
            && sweep.reclaimed == TotalBytes(before) - TotalBytes(sweep.contents)
            && ListsReapable(sweep.remaining, sweep.contents, sessions)
  {
    var expired := ExpiredIds(before, sessions, now, ttl);
    var sweep := SweepAll(before, sessions, now, ttl, ids);
    SweepAllKeeps(before, sessions, now, ttl, ids);
    assert expired * before.Keys == expired;
    SeenAll(before, sessions, expired, sweep.remaining);
  }

  /** Deletes every expired directory of a session that is not live; a missing time of death is never old. */
  method ReapAgedBundles(store: DiagnosticsStore, registry: SessionRegistry, now: Time, bundleTtl: Time)
    returns (bundles: nat, reclaimed: int, remaining: seq<Candidate>)
    modifies store
    ensures store.contents == old(store.contents) - ExpiredIds(old(store.contents), registry.sessions, now, bundleTtl)
    ensures bundles == |ExpiredIds(old(store.contents), registry.sessions, now, bundleTtl)|
    ensures reclaimed == TotalBytes(old(store.contents)) - TotalBytes(store.contents)
    ensures ListsReapable(remaining, store.contents, registry.sessions)
    ensures forall id :: id in old(store.contents) ==>
              (id !in store.contents <==>
                 && !(id in registry.sessions && registry.sessions[id].state.Live?)
                 && old(store.contents)[id].meta.Some? && old(store.contents)[id].meta.value.endedAt.Some?
                 && now - old(store.contents)[id].meta.value.endedAt.value > bundleTtl)
  {
    bundles, reclaimed, remaining := 0, 0, [];
    ghost var before, sessions := store.contents, registry.sessions;
    var ids := store.ListSessions();
    for i := 0 to |ids|
      invariant Sweep(store.contents, bundles, reclaimed, remaining) == SweepAll(before, sessions, now, bundleTtl, ids[..i])
    {
      var id := ids[i];
      assert ids[..i + 1][..i] == ids[..i];
      var info := registry.Get(id);
      if info.Some? && info.value.state.Live? {
        continue;
      }
      var endedAt := EndedAt(store.contents, id);
      if endedAt.None? {
        continue;
      }
      if now - endedAt.value > bundleTtl {
        var size := SessionBytes(store.contents, id);
        store.Delete(id);
        bundles := bundles + 1;
        reclaimed := reclaimed + size;
        continue;
      }
      remaining := remaining + [(endedAt.value, id)];
    }
    assert ids[..|ids|] == ids && SetOf(ids) == before.Keys;
    SweepAllMeans(before, sessions, now, bundleTtl, ids);
  }

  /** What is left of the store once the first k candidates of the order are gone. */
  function AfterEvicting(store: Contents, ordered: seq<Candidate>, k: nat): Contents
    requires k <= |ordered|
  {
    store - IdsOf(ordered[..k])
  }

  lemma EvictingOneMore(store: Contents, ordered: seq<Candidate>, k: nat)
    requires k < |ordered|
    ensures AfterEvicting(store, ordered, k + 1) == AfterEvicting(store, ordered, k) - {ordered[k].1}
  {
    assert ordered[..k + 1] == ordered[..k] + [ordered[k]];
    assert ordered[k] in ordered[..k + 1];
    assert IdsOf(ordered[..k + 1]) == IdsOf(ordered[..k]) + {ordered[k].1};
  }

  /** Evicts a prefix of the order, and the shortest one that brings the store under the cap. */
  method EvictOverCap(store: DiagnosticsStore, aged: seq<Candidate>, maxBytes: int) returns (bundles: nat, reclaimed: int)
    modifies store
    ensures |ByDeath(aged)| == |aged| && bundles <= |aged|
    ensures store.contents == AfterEvicting(old(store.contents), ByDeath(aged), bundles)
    ensures reclaimed == TotalBytes(old(store.contents)) - TotalBytes(store.contents)
    ensures TotalBytes(store.contents) <= maxBytes || bundles == |aged|
    ensures forall k :: 0 <= k < bundles ==> TotalBytes(AfterEvicting(old(store.contents), ByDeath(aged), k)) > maxBytes
  {
    bundles, reclaimed := 0, 0;
    ghost var before := store.contents;
    ByDeathIsOrdered(aged);
    var ordered := ByDeath(aged);
    var total: int := store.Total();
    for i := 0 to |ordered|
      invariant bundles == i
      invariant store.contents == AfterEvicting(before, ordered, i)
      invariant total == TotalBytes(store.contents)
      invariant reclaimed == TotalBytes(before) - TotalBytes(store.contents)
      invariant forall k :: 0 <= k < i ==> TotalBytes(AfterEvicting(before, ordered, k)) > maxBytes
    {
      if total <= maxBytes {
        break;
      }
      var id := ordered[i].1;
      var size := SessionBytes(store.contents, id);
      TotalWithout(store.contents, id);
      EvictingOneMore(before, ordered, i);
      store.Delete(id);
      total := total - size;
      bundles := bundles + 1;
      reclaimed := reclaimed + size;
    }
  }

  /** An evicted candidate died no later than any that is kept; of two that died together the smaller id goes first. */
  ghost predicate OldestFirst(before: Contents, after: Contents, aged: seq<Candidate>) {
    DistinctCandidates(aged) ==>
      forall x, y :: x in aged && y in aged && x.1 in before && x.1 !in after && y.1 in after ==>
        x.0 < y.0 || (x.0 == y.0 && x.1 < y.1)
  }

  /** Evicting a prefix of the order is evicting the oldest candidates. */
  lemma EvictsOldestFirst(store: Contents, aged: seq<Candidate>, k: nat)
    requires |ByDeath(aged)| == |aged| && k <= |aged|
    ensures OldestFirst(store, AfterEvicting(store, ByDeath(aged), k), aged)
  {
    var ordered := ByDeath(aged);
    ByDeathIsOrdered(aged);
    if DistinctCandidates(aged) {
      DistinctIdsSurviveSorting(aged);
      forall x, y | x in aged && y in aged && x.1 in store && x.1 in IdsOf(ordered[..k]) && y.1 !in IdsOf(ordered[..k])
        ensures x.0 < y.0 || (x.0 == y.0 && x.1 < y.1)
      {
        assert x in multiset(ordered) && y in multiset(ordered);
        var i :| 0 <= i < |ordered| && ordered[i] == x;
        var j :| 0 <= j < |ordered| && ordered[j] == y;
        var e :| e in ordered[..k] && e.1 == x.1;
        var m :| 0 <= m < k && ordered[m] == e;
        assert m == i;
        assert NoLater(x, y);
      }
    }
  }

  /** What one pass may delete: the expired directories, then the oldest reapable ones. */
  ghost predicate PassDeletes(before: Contents, after: Contents, sessions: Sessions) {
    && after.Keys <= before.Keys
    && (forall id :: id in after ==> after[id] == before[id])
    && (forall id :: id in before && id !in after ==> Reapable(before, sessions, id))
  }

  /** A prefix of the order names as many sessions as it is long, and the whole order names them all. */
  lemma SortedPrefix(aged: seq<Candidate>, k: nat)
    requires DistinctCandidates(aged) && k <= |aged|
    ensures |ByDeath(aged)| == |aged|
    ensures |IdsOf(ByDeath(aged)[..k])| == k && IdsOf(ByDeath(aged)[..k]) <= IdsOf(aged)
    ensures k == |aged| ==> IdsOf(ByDeath(aged)[..k]) == IdsOf(aged)
  {
    ByDeathIsOrdered(aged);
    SortedHasSameIds(aged);
    DistinctIdsSurviveSorting(aged);
    IdsOfDistinct(ByDeath(aged)[..k]);
    if k == |aged| {
      assert ByDeath(aged)[..k] == ByDeath(aged);
    }
  }

  lemma ReapableIds(store: Contents, sessions: Sessions, aged: seq<Candidate>)
    requires ListsReapable(aged, store, sessions)
    ensures IdsOf(aged) == set id | id in store && Reapable(store, sessions, id)
  {
  }

  /** Evicting k of the reapable directories removes k directories, all of them reapable. */
  lemma EvictionDeletesReapable(swept: Contents, sessions: Sessions, aged: seq<Candidate>, k: nat)
    requires ListsReapable(aged, swept, sessions) && k <= |aged|
    ensures |ByDeath(aged)| == |aged|
    ensures |swept| == |AfterEvicting(swept, ByDeath(aged), k)| + k
    ensures PassDeletes(swept, AfterEvicting(swept, ByDeath(aged), k), sessions)
    ensures k == |aged| ==> forall id :: id in AfterEvicting(swept, ByDeath(aged), k) ==> !Reapable(swept, sessions, id)
  {
    SortedPrefix(aged, k);
    ReapableIds(swept, sessions, aged);
    SizeWithout(swept, IdsOf(ByDeath(aged)[..k]));
  }

  lemma SizeWithout(store: Contents, gone: set<SessionId>)
    requires gone <= store.Keys
    ensures |store| == |store - gone| + |gone|
  {
    assert store.Keys == (store - gone).Keys + gone;
    assert |store.Keys| == |store| && |(store - gone).Keys| == |store - gone|;
  }

  /** A sweep and then an eviction delete only what may be deleted, and leave nothing expired. */
  lemma PassMeans(before: Contents, after: Contents, sessions: Sessions, now: Time, ttl: Time, allGone: bool)
    requires PassDeletes(before - ExpiredIds(before, sessions, now, ttl), after, sessions)
    requires allGone ==> forall id :: id in after ==> !Reapable(before - ExpiredIds(before, sessions, now, ttl), sessions, id)
    ensures PassDeletes(before, after, sessions)
    ensures allGone ==> forall id :: id in after ==> LiveIn(sessions, id) || EndedAt(after, id).None?
    ensures forall id :: id in after ==> !Expired(after, sessions, now, ttl, id)
  {
    var swept := before - ExpiredIds(before, sessions, now, ttl);
    forall id | id in after ensures after[id] == before[id] && EndedAt(after, id) == EndedAt(before, id) == EndedAt(swept, id) {
    }
    assert forall id :: id in swept ==> EndedAt(swept, id) == EndedAt(before, id);
  }

  /** Of two directories that a pass may evict the older one goes first. */
  ghost predicate KeepsTheNewest(before: Contents, after: Contents, sessions: Sessions, now: Time, ttl: Time) {
    forall x, y ::
      x in before && x !in after && !Expired(before, sessions, now, ttl, x) && y in after && Reapable(after, sessions, y)
      ==> EndedAt(before, x).Some? && NoLater((EndedAt(before, x).value, x), (EndedAt(after, y).value, y))
  }

  lemma PassOldestFirst(before: Contents, swept: Contents, after: Contents, sessions: Sessions, aged: seq<Candidate>)
    requires swept.Keys <= before.Keys && after.Keys <= swept.Keys
    requires (forall id :: id in swept ==> swept[id] == before[id]) && (forall id :: id in after ==> after[id] == swept[id])
    requires ListsReapable(aged, swept, sessions) && OldestFirst(swept, after, aged)
    requires forall id :: id in swept && id !in after ==> Reapable(swept, sessions, id)
    ensures forall x, y :: x in swept && x !in after && y in after && Reapable(after, sessions, y) ==>
              EndedAt(before, x).Some? && NoLater((EndedAt(before, x).value, x), (EndedAt(after, y).value, y))
  {
    forall x, y | x in swept && x !in after && y in after && Reapable(after, sessions, y)
      ensures EndedAt(before, x).Some? && NoLater((EndedAt(before, x).value, x), (EndedAt(after, y).value, y))
    {
      assert EndedAt(swept, x) == EndedAt(before, x) && EndedAt(swept, y) == EndedAt(after, y);
      assert x in IdsOf(aged) && y in IdsOf(aged);
      var i :| i in aged && i.1 == x;
      var j :| j in aged && j.1 == y;
    }
  }

  /**
   * The store part of a pass, which runs without giving up the event loop.  The counts it reports
   * are exact, and a store still over the cap holds nothing the reaper was allowed to delete.
   */
  method ReapBundles(store: DiagnosticsStore, registry: SessionRegistry, now: Time, bundleTtl: Time, maxBytes: int)
    returns (bundles: nat, bytes: int)
    modifies store
    ensures PassDeletes(old(store.contents), store.contents, registry.sessions)
    ensures bundles == |old(store.contents)| - |store.contents|
    ensures bytes == TotalBytes(old(store.contents)) - TotalBytes(store.contents)
    ensures TotalBytes(store.contents) <= maxBytes
            || forall id :: id in store.contents ==> LiveIn(registry.sessions, id) || EndedAt(store.contents, id).None?
    ensures forall id :: id in store.contents ==> !Expired(store.contents, registry.sessions, now, bundleTtl, id)
    ensures KeepsTheNewest(old(store.contents), store.contents, registry.sessions, now, bundleTtl)
  {
    ghost var before := store.contents;
    ghost var expired := ExpiredIds(before, registry.sessions, now, bundleTtl);
    var aged: seq<Candidate>;
    bundles, bytes, aged := ReapAgedBundles(store, registry, now, bundleTtl);
    ghost var swept := store.contents;
    SizeWithout(before, expired);
    var evicted, evictedBytes := EvictOverCap(store, aged, maxBytes);
    EvictionDeletesReapable(swept, registry.sessions, aged, evicted);
    EvictsOldestFirst(swept, aged, evicted);
    PassOldestFirst(before, swept, store.contents, registry.sessions, aged);
    PassMeans(before, store.contents, registry.sessions, now, bundleTtl, evicted == |aged|);
    bundles := bundles + evicted;
    bytes := bytes + evictedBytes;
  }

  ghost predicate DistinctCandidates(aged: seq<Candidate>) {
    forall i, j :: 0 <= i < j < |aged| ==> aged[i].1 != aged[j].1
  }

  lemma {:induction false} IdsOfDistinct(aged: seq<Candidate>)
    requires DistinctCandidates(aged)
    ensures |IdsOf(aged)| == |aged|
  {
    if aged != [] {
      var rest := aged[1..];
      IdsOfDistinct(rest);
      assert aged[0].1 !in IdsOf(rest);
      assert IdsOf(aged) == IdsOf(rest) + {aged[0].1} by {
        assert aged == [aged[0]] + rest;
        assert aged[0] in aged;
      }
    }
  }

  lemma {:induction false} InsertKeepsDistinct(x: Candidate, sorted: seq<Candidate>)
    requires DistinctCandidates(sorted) && x.1 !in IdsOf(sorted)
    ensures DistinctCandidates(Insert(x, sorted, NoLater)) && IdsOf(Insert(x, sorted, NoLater)) == IdsOf(sorted) + {x.1}
  {
    if sorted == [] || NoLater(x, sorted[0]) {
      assert x in [x] + sorted;
      assert forall i :: 0 <= i < |sorted| ==> sorted[i] in sorted && sorted[i].1 in IdsOf(sorted);
    } else {
      var rest := sorted[1..];
      assert sorted == [sorted[0]] + rest;
      InsertKeepsDistinct(x, rest);
      var inserted := Insert(x, rest, NoLater);
      assert sorted[0].1 !in IdsOf(inserted);
      assert forall i :: 0 <= i < |inserted| ==> inserted[i] in inserted && inserted[i].1 in IdsOf(inserted);
      assert IdsOf(sorted) == IdsOf(rest) + {sorted[0].1};
      assert IdsOf([sorted[0]] + inserted) == IdsOf(inserted) + {sorted[0].1};
    }
  }

  lemma {:induction false} DistinctIdsSurviveSorting(aged: seq<Candidate>)
    requires DistinctCandidates(aged)
    ensures DistinctCandidates(ByDeath(aged))
  {
    if aged != [] {
      var rest := aged[1..];
      DistinctIdsSurviveSorting(rest);
      SortedHasSameIds(rest);
      assert aged[0].1 !in IdsOf(rest);
      InsertKeepsDistinct(aged[0], ByDeath(rest));
    }
  }
}
