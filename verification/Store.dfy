/** The diagnostics store: one directory per session, holding metadata, a bundle and other files. */
module Stores {
  import opened AgentInfos
  import opened Wrappers

  // meta.json: the time of death it records, if any, and its size on disk.
  datatype Meta = Meta(endedAt: Option<Time>, bytes: nat)

  // The files of one session directory.  "other" stands for whatever a launcher keeps there.
  datatype Entry = Entry(meta: Option<Meta>, bundle: Option<nat>, other: nat)

  type Contents = map<SessionId, Entry>

  const NO_FILES := Entry(None, None, 0)

  function EntryOf(store: Contents, id: SessionId): Entry {
    if id in store then store[id] else NO_FILES
  }

  function WithMeta(store: Contents, id: SessionId, meta: Meta): Contents {
    store[id := EntryOf(store, id).(meta := Some(meta))]
  }

  function WithBundle(store: Contents, id: SessionId, bytes: nat): Contents {
    store[id := EntryOf(store, id).(bundle := Some(bytes))]
  }

  function EntryBytes(entry: Entry): nat {
    (if entry.meta.Some? then entry.meta.value.bytes else 0)
    + (if entry.bundle.Some? then entry.bundle.value else 0)
    + entry.other
  }

  function SessionBytes(store: Contents, id: SessionId): nat {
    if id in store then EntryBytes(store[id]) else 0
  }

  function EndedAt(store: Contents, id: SessionId): Option<Time> {
    if id in store && store[id].meta.Some? then store[id].meta.value.endedAt else None
  }

  ghost function TotalBytes(store: Contents): nat {
    if store == map[] then 0
    else
      var id :| id in store;
      EntryBytes(store[id]) + TotalBytes(store - {id})
  }

  /** The total does not depend on the order of the walk: any directory can be counted first. */
  lemma {:induction false} TotalWithout(store: Contents, id: SessionId)
    ensures TotalBytes(store) == SessionBytes(store, id) + TotalBytes(store - {id})
    decreases |store|
  {
    if id !in store {
      assert store - {id} == store;
    } else {
      var first :| first in store && TotalBytes(store) == EntryBytes(store[first]) + TotalBytes(store - {first});
      if first != id {
        TotalWithout(store - {first}, id);
        TotalWithout(store - {id}, first);
        assert store - {first} - {id} == store - {id} - {first};
      }
    }
  }

  function Sum(chunks: seq<nat>): nat {
    if chunks == [] then 0 else Sum(chunks[..|chunks| - 1]) + chunks[|chunks| - 1]
  }

  lemma {:induction false} SumOfMore(chunks: seq<nat>, more: seq<nat>)
    ensures Sum(chunks + more) == Sum(chunks) + Sum(more)
    ensures forall n: nat :: Sum([n]) == n
  {
    if more == [] {
      assert chunks + more == chunks;
    } else {
      SumOfMore(chunks, more[..|more| - 1]);
      assert (chunks + more)[..|chunks + more| - 1] == chunks + more[..|more| - 1];
    }
  }

  /** Writing a bundle or the metadata changes the size of the store by the new file less the one it replaces. */
  lemma WritingGrows(store: Contents, id: SessionId, bytes: nat, meta: Meta)
    ensures TotalBytes(WithBundle(store, id, bytes))
            == TotalBytes(store) + bytes - (if id in store && store[id].bundle.Some? then store[id].bundle.value else 0)
    ensures TotalBytes(WithMeta(store, id, meta))
            == TotalBytes(store) + meta.bytes - (if id in store && store[id].meta.Some? then store[id].meta.value.bytes else 0)
  {
    TotalWithout(store, id);
    TotalWithout(WithBundle(store, id, bytes), id);
    TotalWithout(WithMeta(store, id, meta), id);
    assert WithBundle(store, id, bytes) - {id} == store - {id};
    assert WithMeta(store, id, meta) - {id} == store - {id};
  }

  /** An empty store has no bytes, and a directory counts all its files. */
  lemma TotalOfOne(id: SessionId, meta: Meta, bundle: nat, other: nat)
    ensures TotalBytes(map[]) == 0
    ensures TotalBytes(map[id := Entry(Some(meta), Some(bundle), other)]) == meta.bytes + bundle + other
  {
    var store := map[id := Entry(Some(meta), Some(bundle), other)];
    TotalWithout(store, id);
    assert store - {id} == map[];
  }

  class DiagnosticsStore {
    var contents: Contents

    constructor ()
      ensures contents == map[]
    {
      contents := map[];
    }

    method WriteMeta(id: SessionId, meta: Meta)
      modifies this
      ensures contents == WithMeta(old(contents), id, meta)
    {
      contents := contents[id := EntryOf(contents, id).(meta := Some(meta))];
    }

    /** Writes the chunks, given by their lengths, and reports how many bytes that made. */
    method WriteBundle(id: SessionId, chunks: seq<nat>) returns (written: nat)
      modifies this
      ensures written == Sum(chunks)
      ensures contents == WithBundle(old(contents), id, written)
    {
      written := 0;
      for i := 0 to |chunks|
        invariant written == Sum(chunks[..i])
      {
        assert chunks[..i + 1][..i] == chunks[..i];
        written := written + chunks[i];
      }
      assert chunks[..|chunks|] == chunks;
      contents := contents[id := EntryOf(contents, id).(bundle := Some(written))];
    }

    /** Every session directory once, in the order the file system happens to give. */
    method ListSessions() returns (ids: seq<SessionId>)
      ensures forall id :: id in ids <==> id in contents
      ensures forall i, j :: 0 <= i < j < |ids| ==> ids[i] != ids[j]
    {
      ids := [];
      var left := contents.Keys;
      while left != {}
        invariant left <= contents.Keys
        invariant forall id :: id in ids <==> id in contents.Keys - left
        invariant forall i, j :: 0 <= i < j < |ids| ==> ids[i] != ids[j]
      {
        var id :| id in left;
        assert id !in ids;
        assert forall i :: 0 <= i < |ids| ==> ids[i] in ids;
        ids := ids + [id];
        left := left - {id};
      }
    }

    method Total() returns (total: nat)
      ensures total == TotalBytes(contents)
    {
      total := 0;
      var left := contents;
      while left != map[]
        invariant left.Keys <= contents.Keys
        invariant total + TotalBytes(left) == TotalBytes(contents)
        decreases |left|
      {
        var id :| id in left;
        TotalWithout(left, id);
        total := total + EntryBytes(left[id]);
        left := left - {id};
      }
    }

    method Delete(id: SessionId)
      modifies this
      ensures contents == old(contents) - {id}
    {
      contents := contents - {id};
    }
  }
}
