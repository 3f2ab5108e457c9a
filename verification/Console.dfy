/** The bounded, cursor-ordered event buffer, refined against the unbounded log of everything appended. */
module Consoles {
  import opened Wrappers

  // The optional fields are compared, never interpreted.
  datatype Event = Event(seqNo: nat, stream: string, device: Option<string>, job: Option<string>, line: string)

  // An absent field matches everything.
  datatype Filter = Filter(device: Option<string>, stream: Option<string>, job: Option<string>)

  predicate Matches(filter: Filter, event: Event) {
    && (filter.device.Some? ==> event.device == filter.device)
    && (filter.stream.Some? ==> Some(event.stream) == filter.stream)
    && (filter.job.Some? ==> event.job == filter.job)
  }

  /** The n-th event ever appended carries number n. */
  ghost predicate Numbered(log: seq<Event>) {
    forall i :: 0 <= i < |log| ==> log[i].seqNo == i
  }

  /** Number of the oldest event a buffer of this length still holds. */
  function Oldest(maxlen: nat, n: nat): (first: nat)
    ensures first <= n
  {
    if n <= maxlen then 0 else n - maxlen
  }

  function Selected(events: seq<Event>, filter: Filter): seq<Event> {
    if events == [] then []
    else
      var n := |events| - 1;
      if Matches(filter, events[n]) then Selected(events[..n], filter) + [events[n]] else Selected(events[..n], filter)
  }

  lemma {:induction false} SelectedConcat(a: seq<Event>, b: seq<Event>, filter: Filter)
    ensures Selected(a + b, filter) == Selected(a, filter) + Selected(b, filter)
  {
    if b == [] {
      assert a + b == a;
    } else {
      var n := |b| - 1;
      SelectedConcat(a, b[..n], filter);
      assert (a + b)[..|a + b| - 1] == a + b[..n];
    }
  }

  lemma SelectedJoin(log: seq<Event>, lo: nat, mid: nat, hi: nat, filter: Filter)
    requires lo <= mid <= hi <= |log|
    ensures Selected(log[lo..hi], filter) == Selected(log[lo..mid], filter) + Selected(log[mid..hi], filter)
  {
    assert log[lo..hi] == log[lo..mid] + log[mid..hi];
    SelectedConcat(log[lo..mid], log[mid..hi], filter);
  }

  lemma {:induction false} SelectedMembers(events: seq<Event>, filter: Filter)
    ensures forall e :: e in Selected(events, filter) <==> e in events && Matches(filter, e)
    ensures |Selected(events, filter)| <= |events|
  {
    if events != [] {
      var n := |events| - 1;
      SelectedMembers(events[..n], filter);
      assert events == events[..n] + [events[n]];
    }
  }

  // What read asks for when told to stop at limit events: it tests the count after adding one.
  function AtLeastOne(limit: int): nat {
    if limit < 1 then 1 else limit
  }

  /** Where a read of a log starts: the cursor, or the oldest retained event, or the end. */
  function PageStart(maxlen: nat, log: seq<Event>, cursor: int): (start: nat)
    ensures start <= |log|
  {
    var first := Oldest(maxlen, |log|);
    if cursor <= first then first else if cursor <= |log| then cursor else |log|
  }

  /** Goes through the log from a position, collecting matches until the limit stops it. */
  function Scan(log: seq<Event>, at: nat, selected: seq<Event>, filter: Filter, limit: int): (seq<Event>, nat)
    requires at <= |log|
    decreases |log| - at
  {
    if at == |log| then (selected, |log|)
    else if !Matches(filter, log[at]) then Scan(log, at + 1, selected, filter, limit)
    else if |selected| + 1 >= limit then (selected + [log[at]], at + 1)
    else Scan(log, at + 1, selected + [log[at]], filter, limit)
  }

  function Page(maxlen: nat, log: seq<Event>, cursor: int, filter: Filter, limit: int): (seq<Event>, nat) {
    Scan(log, PageStart(maxlen, log, cursor), [], filter, limit)
  }

  lemma SelectedGrows(log: seq<Event>, start: nat, at: nat, filter: Filter)
    requires start <= at < |log|
    ensures Selected(log[start..at + 1], filter) == Selected(log[start..at], filter) + (if Matches(filter, log[at]) then [log[at]] else [])
  {
    assert log[start..at + 1][..at - start] == log[start..at];
  }

  lemma {:induction false} ScanSelects(log: seq<Event>, start: nat, at: nat, selected: seq<Event>, filter: Filter, limit: int)
    requires start <= at <= |log| && selected == Selected(log[start..at], filter) && |selected| < AtLeastOne(limit)
    ensures var (page, next) := Scan(log, at, selected, filter, limit);
            && at <= next <= |log|
            && page == Selected(log[start..next], filter) && |page| <= AtLeastOne(limit)
            && (next < |log| ==> |page| == AtLeastOne(limit) && next > at && Matches(filter, log[next - 1]))
    decreases |log| - at
  {
    if at < |log| {
      SelectedGrows(log, start, at, filter);
      if !Matches(filter, log[at]) {
        ScanSelects(log, start, at + 1, selected, filter, limit);
      } else if |selected| + 1 < limit {
        ScanSelects(log, start, at + 1, selected + [log[at]], filter, limit);
      }
    }
  }

  /** A page is exactly the matching events between its start and the returned cursor; it stops early only when full. */
  lemma PageSelects(maxlen: nat, log: seq<Event>, cursor: int, filter: Filter, limit: int)
    ensures var (page, next) := Page(maxlen, log, cursor, filter, limit);
            var start := PageStart(maxlen, log, cursor);
            && start <= next <= |log|
            && page == Selected(log[start..next], filter) && |page| <= AtLeastOne(limit)
            && (next < |log| ==> |page| == AtLeastOne(limit) && next > start && Matches(filter, log[next - 1]))
  {
    var start := PageStart(maxlen, log, cursor);
    assert log[start..start] == [];
    ScanSelects(log, start, start, [], filter, limit);
  }

  /** Each condition of the filter that is set must hold. */
  predicate Passes(filter: Filter, event: Event) {
    && (filter.device.None? || event.device == filter.device)
    && (filter.stream.None? || event.stream == filter.stream.value)
    && (filter.job.None? || event.job == filter.job)
  }

  /**
   * What a read answers, told from the deque: of the retained events from the cursor up to the next one
   * exactly those that pass, in order; and the next cursor is the end unless the limit was reached.
   */
  ghost predicate Answers(events: seq<Event>, nextSeq: nat, cursor: int, filter: Filter, limit: int, selected: seq<Event>, nextCursor: nat) {
    && (forall i, j :: 0 <= i < j < |selected| ==> selected[i].seqNo < selected[j].seqNo)
    && (forall e :: e in selected <==> e in events && cursor <= e.seqNo < nextCursor && Passes(filter, e))
    && |selected| <= (if limit < 1 then 1 else limit)
    && nextCursor <= nextSeq
    && (nextCursor < nextSeq ==> |selected| == (if limit < 1 then 1 else limit) && nextCursor == selected[|selected| - 1].seqNo + 1)
  }

  lemma PageAnswers(maxlen: nat, log: seq<Event>, cursor: int, filter: Filter, limit: int)
    requires Numbered(log)
    ensures var (page, next) := Page(maxlen, log, cursor, filter, limit);
            Answers(log[Oldest(maxlen, |log|)..], |log|, cursor, filter, limit, page, next)
  {
    var (page, next) := Page(maxlen, log, cursor, filter, limit);
    var first, start := Oldest(maxlen, |log|), PageStart(maxlen, log, cursor);
    var events := log[first..];
    PageSelects(maxlen, log, cursor, filter, limit);
    SelectedOrdered(log, start, next, filter);
    forall e ensures e in page <==> e in events && cursor <= e.seqNo < next && Passes(filter, e) {
      RetainedIff(log, first, e);
    }
    if next < |log| {
      LastSelected(log, start, next, filter);
    }
  }

  lemma RetainedIff(log: seq<Event>, first: nat, e: Event)
    requires Numbered(log) && first <= |log|
    ensures e in log[first..] <==> first <= e.seqNo < |log| && log[e.seqNo] == e
  {
    if e in log[first..] {
      var i :| 0 <= i < |log[first..]| && log[first..][i] == e;
      assert log[first + i] == e;
    }
    if first <= e.seqNo < |log| && log[e.seqNo] == e {
      assert log[first..][e.seqNo - first] == e;
    }
  }

  lemma LastSelected(log: seq<Event>, start: nat, next: nat, filter: Filter)
    requires start < next <= |log| && Matches(filter, log[next - 1])
    ensures var page := Selected(log[start..next], filter); page != [] && page[|page| - 1] == log[next - 1]
  {
    SelectedGrows(log, start, next - 1, filter);
  }

  /** A read misses nothing that is retained exactly when the matching events fit its limit. */
  lemma PageCompleteIff(maxlen: nat, log: seq<Event>, cursor: int, filter: Filter, limit: int)
    ensures var all := Selected(log[PageStart(maxlen, log, cursor)..], filter);
            Page(maxlen, log, cursor, filter, limit).0 == all <==> |all| <= AtLeastOne(limit)
  {
    var start, next := PageStart(maxlen, log, cursor), Page(maxlen, log, cursor, filter, limit).1;
    PageSelects(maxlen, log, cursor, filter, limit);
    assert log[start..] == log[start..next] + log[next..];
    SelectedConcat(log[start..next], log[next..], filter);
  }

  /** Appending to a full deque drops its oldest event; what is left is again the tail of the log. */
  lemma TailGrows(log: seq<Event>, event: Event, maxlen: nat)
    ensures var longer := log[Oldest(maxlen, |log|)..] + [event];
            (log + [event])[Oldest(maxlen, |log| + 1)..] == if |longer| > maxlen then longer[1..] else longer
  {
  }

  lemma NumberedGrows(log: seq<Event>, event: Event)
    requires Numbered(log) && event.seqNo == |log|
    ensures Numbered(log + [event])
  {
  }

  lemma PartGrows(log: seq<Event>, event: Event, from: nat, consumed: seq<Event>, items: seq<Event>)
    requires from <= |log| && consumed + items == log[from..]
    ensures (log + [event])[from..] == consumed + (items + [event])
  {
    assert (log + [event])[from..] == log[from..] + [event];
    assert consumed + items + [event] == consumed + (items + [event]);
  }

  class Subscriber {
    var items: seq<Event>
    ghost var consumed: seq<Event>
    ghost var from: nat

    constructor (ghost from: nat)
      ensures items == [] && consumed == [] && this.from == from
    {
      items := [];
      consumed := [];
      this.from := from;
    }

    method Put(event: Event)
      modifies this`items
      ensures items == old(items) + [event]
    {
      items := items + [event];
    }

    method Take() returns (event: Event)
      requires items != []
      modifies this`items, this`consumed
      ensures event == old(items)[0] && items == old(items)[1..]
      ensures consumed == old(consumed) + [event]
    {
      event := items[0];
      items := items[1..];
      consumed := consumed + [event];
    }
  }

  class EventBuffer {
    const maxlen: nat
    var events: seq<Event>
    var nextSeq: nat
    var subscribers: seq<Subscriber>
    ghost var log: seq<Event>

    /** The deque is the tail of the log. */
    ghost predicate Retains()
      reads this
    {
      nextSeq == |log| && Numbered(log) && events == log[Oldest(maxlen, |log|)..]
    }

    /** The deque is the tail of the log, and every subscriber has or will get the log from its start. */
    ghost predicate Valid()
      reads this, subscribers
    {
      && Retains()
      && (forall i, j :: 0 <= i < j < |subscribers| ==> subscribers[i] != subscribers[j])
      && (forall q :: q in subscribers ==> q.from <= |log| && q.consumed + q.items == log[q.from..])
    }

    constructor (maxlen: nat)
      ensures Valid() && log == [] && subscribers == [] && this.maxlen == maxlen
    {
      this.maxlen := maxlen;
      events, nextSeq, subscribers, log := [], 0, [], [];
    }

    method Append(stream: string, device: Option<string>, job: Option<string>, line: string) returns (event: Event)
      requires Valid()
      modifies this`events, this`nextSeq, this`log, subscribers
      ensures Valid() && event == Event(old(nextSeq), stream, device, job, line)
      ensures log == old(log) + [event]
      ensures |events| == (if |log| <= maxlen then |log| else maxlen) && events == log[|log| - |events|..]
      ensures forall q :: q in subscribers ==> q.items == old(q.items) + [event] && q.consumed == old(q.consumed) && q.from == old(q.from)
    {
      event := Event(nextSeq, stream, device, job, line);
      Record(event);
      forall q | q in subscribers ensures log[q.from..] == q.consumed + (q.items + [event]) {
        PartGrows(old(log), event, q.from, q.consumed, q.items);
      }
      Notify(event);
    }

    method Record(event: Event)
      requires Retains() && event.seqNo == nextSeq
      modifies this`events, this`nextSeq, this`log
      ensures Retains() && log == old(log) + [event]
    {
      nextSeq := nextSeq + 1;
      log := log + [event];
      events := events + [event];
      if |events| > maxlen {
        events := events[1..];
      }
      TailGrows(old(log), event, maxlen);
      NumberedGrows(old(log), event);
    }

    method Notify(event: Event)
      requires forall i, j :: 0 <= i < j < |subscribers| ==> subscribers[i] != subscribers[j]
      modifies subscribers
      ensures forall q :: q in subscribers ==> q.items == old(q.items) + [event] && q.consumed == old(q.consumed) && q.from == old(q.from)
    {
      for i := 0 to |subscribers|
        invariant forall j :: 0 <= j < i ==> subscribers[j].items == old(subscribers[j].items) + [event]
        invariant forall j :: i <= j < |subscribers| ==> subscribers[j].items == old(subscribers[j].items)
        invariant forall q :: q in subscribers ==> q.consumed == old(q.consumed) && q.from == old(q.from)
      {
        subscribers[i].Put(event);
      }
    }

    method Subscribe() returns (queue: Subscriber)
      requires Valid()
      modifies this`subscribers
      ensures Valid() && fresh(queue) && queue.items == [] && queue.consumed == [] && queue.from == nextSeq
      ensures subscribers == old(subscribers) + [queue]
    {
      queue := new Subscriber(nextSeq);
      assert queue !in subscribers;
      subscribers := subscribers + [queue];
    }

    /** Events at or after the cursor that pass the filter, and where to go on from. */
    method Read(cursor: int, filter: Filter, limit: int) returns (selected: seq<Event>, nextCursor: nat)
      requires Valid()
      ensures (selected, nextCursor) == Page(maxlen, log, cursor, filter, limit)
      ensures Answers(events, nextSeq, cursor, filter, limit, selected, nextCursor)
    {
      PageAnswers(maxlen, log, cursor, filter, limit);
      selected := [];
      var truncated := false;
      ghost var first, start := Oldest(maxlen, |log|), PageStart(maxlen, log, cursor);
      for i := 0 to |events|
        invariant Page(maxlen, log, cursor, filter, limit)
                  == Scan(log, if first + i < start then start else first + i, selected, filter, limit)
      {
        var event := events[i];
        assert event == log[first + i];
        if event.seqNo < cursor {
          continue;
        }
        if filter.device.Some? && event.device != filter.device {
          continue;
        }
        if filter.stream.Some? && Some(event.stream) != filter.stream {
          continue;
        }
        if filter.job.Some? && event.job != filter.job {
          continue;
        }
        selected := selected + [event];
        if |selected| >= limit {
          truncated := true;
          break;
        }
      }
      nextCursor := if truncated then selected[|selected| - 1].seqNo + 1 else nextSeq;
    }
  }

  // ---- reading page after page

  // One read of a session that appends in between: the log when it happened, what was asked and answered.
  datatype PageRead = PageRead(log: seq<Event>, cursor: int, limit: int, page: seq<Event>, next: nat) {
    /** The first number asked for: a negative cursor asks for everything. */
    function From(): nat {
      if cursor < 0 then 0 else cursor
    }
  }

  /** Each read goes on from the cursor the one before it returned; the log only grows. */
  ghost predicate Chain(chain: seq<PageRead>, maxlen: nat, filter: Filter) {
    && (forall i :: 0 <= i < |chain| ==>
          && Numbered(chain[i].log)
          && (chain[i].page, chain[i].next) == Page(maxlen, chain[i].log, chain[i].cursor, filter, chain[i].limit))
    && (forall i :: 0 < i < |chain| ==> chain[i].cursor == chain[i - 1].next && chain[i - 1].log <= chain[i].log)
    && (chain != [] ==> chain[0].cursor <= |chain[0].log|)
  }

  function Pages(chain: seq<PageRead>): seq<Event> {
    if chain == [] then [] else Pages(chain[..|chain| - 1]) + chain[|chain| - 1].page
  }

  /** The event was overwritten before the read that would have returned it. */
  ghost predicate EvictedUnread(chain: seq<PageRead>, maxlen: nat, k: nat) {
    exists i :: 0 <= i < |chain| && chain[i].cursor <= k < chain[i].next && k < Oldest(maxlen, |chain[i].log|)
  }

  ghost predicate Increasing(events: seq<Event>) {
    forall i, j :: 0 <= i < j < |events| ==> events[i].seqNo < events[j].seqNo
  }

  lemma {:induction false} SelectedOrdered(log: seq<Event>, lo: nat, hi: nat, filter: Filter)
    requires Numbered(log) && lo <= hi <= |log|
    ensures Increasing(Selected(log[lo..hi], filter))
    ensures forall e :: e in Selected(log[lo..hi], filter) <==> lo <= e.seqNo < hi && log[e.seqNo] == e && Matches(filter, e)
  {
    if lo < hi {
      SelectedOrdered(log, lo, hi - 1, filter);
      assert log[lo..hi][..hi - lo - 1] == log[lo..hi - 1];
    }
  }

  ghost predicate ChainMeaning(chain: seq<PageRead>, maxlen: nat, filter: Filter)
    requires chain != []
  {
    var last := chain[|chain| - 1];
    var from := chain[0].From();
    && from <= last.next <= |last.log|
    && Increasing(Pages(chain))
    && (forall e :: e in Pages(chain) ==> from <= e.seqNo < last.next && last.log[e.seqNo] == e && Matches(filter, e))
    && (forall k :: from <= k < last.next && Matches(filter, last.log[k]) ==>
          last.log[k] in Pages(chain) || EvictedUnread(chain, maxlen, k))
  }

  lemma OnePage(read: PageRead, maxlen: nat, filter: Filter)
    requires Numbered(read.log) && read.cursor <= |read.log|
    requires (read.page, read.next) == Page(maxlen, read.log, read.cursor, filter, read.limit)
    ensures read.From() <= read.next <= |read.log| && Increasing(read.page)
    ensures forall e :: e in read.page ==> read.From() <= e.seqNo < read.next && read.log[e.seqNo] == e && Matches(filter, e)
    ensures forall k :: read.From() <= k < read.next && Matches(filter, read.log[k]) && Oldest(maxlen, |read.log|) <= k ==> read.log[k] in read.page
  {
    PageSelects(maxlen, read.log, read.cursor, filter, read.limit);
    SelectedOrdered(read.log, PageStart(maxlen, read.log, read.cursor), read.next, filter);
  }

  lemma EvictedStays(chain: seq<PageRead>, read: PageRead, maxlen: nat, k: nat)
    ensures EvictedUnread(chain, maxlen, k) ==> EvictedUnread(chain + [read], maxlen, k)
    ensures read.cursor <= k < read.next && k < Oldest(maxlen, |read.log|) ==> EvictedUnread(chain + [read], maxlen, k)
  {
    var all := chain + [read];
    if EvictedUnread(chain, maxlen, k) {
      var i :| 0 <= i < |chain| && chain[i].cursor <= k < chain[i].next && k < Oldest(maxlen, |chain[i].log|);
      assert all[i] == chain[i];
    }
    assert all[|chain|] == read;
  }

  lemma {:induction false} ChainExtends(chain: seq<PageRead>, read: PageRead, maxlen: nat, filter: Filter)
    requires chain != [] && ChainMeaning(chain, maxlen, filter)
    requires chain[|chain| - 1].log <= read.log && read.cursor == chain[|chain| - 1].next && Numbered(read.log)
    requires (read.page, read.next) == Page(maxlen, read.log, read.cursor, filter, read.limit)
    ensures ChainMeaning(chain + [read], maxlen, filter)
  {
    var all := chain + [read];
    assert all[..|chain|] == chain;
    OnePage(read, maxlen, filter);
    forall k | chain[0].From() <= k < read.next && Matches(filter, read.log[k])
      ensures read.log[k] in Pages(all) || EvictedUnread(all, maxlen, k)
    {
      EvictedStays(chain, read, maxlen, k);
    }
  }

  lemma FirstPage(read: PageRead, maxlen: nat, filter: Filter)
    requires Numbered(read.log) && read.cursor <= |read.log|
    requires (read.page, read.next) == Page(maxlen, read.log, read.cursor, filter, read.limit)
    ensures ChainMeaning([read], maxlen, filter)
  {
    OnePage(read, maxlen, filter);
    EvictedAlone(read, maxlen);
    assert Pages([read][..0]) == [];
    assert Pages([read]) == read.page;
  }

  /**
   * Chained reads return matching events in strictly increasing order, none twice, and miss a
   * matching event only if it was evicted before the read that passed it.
   */
  lemma {:induction false} CursorPagination(chain: seq<PageRead>, maxlen: nat, filter: Filter)
    requires Chain(chain, maxlen, filter) && chain != []
    ensures ChainMeaning(chain, maxlen, filter)
  {
    var n := |chain| - 1;
    var last := chain[n];
    if n == 0 {
      assert chain == [last];
      FirstPage(last, maxlen, filter);
    } else {
      ChainPrefix(chain, maxlen, filter);
      CursorPagination(chain[..n], maxlen, filter);
      assert chain == chain[..n] + [last] && chain[..n][n - 1] == chain[n - 1];
      ChainExtends(chain[..n], last, maxlen, filter);
    }
  }

  lemma EvictedAlone(read: PageRead, maxlen: nat)
    ensures forall k: nat :: read.cursor <= k < read.next && k < Oldest(maxlen, |read.log|) ==> EvictedUnread([read], maxlen, k)
  {
    forall k: nat | read.cursor <= k < read.next && k < Oldest(maxlen, |read.log|) ensures EvictedUnread([read], maxlen, k) {
      assert [read][0] == read;
    }
  }

  lemma ChainPrefix(chain: seq<PageRead>, maxlen: nat, filter: Filter)
    requires Chain(chain, maxlen, filter) && |chain| > 1
    ensures var n := |chain| - 1;
            && Chain(chain[..n], maxlen, filter)
            && chain[n].cursor == chain[n - 1].next && chain[n - 1].log <= chain[n].log
            && (chain[n].page, chain[n].next) == Page(maxlen, chain[n].log, chain[n].cursor, filter, chain[n].limit)
  {
  }

  lemma NextPageJoins(log: seq<Event>, from: nat, read: PageRead, maxlen: nat, filter: Filter)
    requires log <= read.log && from <= read.cursor <= |log| && Oldest(maxlen, |read.log|) <= read.cursor
    requires (read.page, read.next) == Page(maxlen, read.log, read.cursor, filter, read.limit)
    ensures read.cursor <= read.next <= |read.log|
    ensures Selected(log[from..read.cursor], filter) + read.page == Selected(read.log[from..read.next], filter)
  {
    PageSelects(maxlen, read.log, read.cursor, filter, read.limit);
    assert log[from..read.cursor] == read.log[from..read.cursor];
    SelectedJoin(read.log, from, read.cursor, read.next, filter);
  }

  /** If nothing was evicted ahead of a read, the pages together are one unlimited read. */
  lemma {:induction false} PagesConcatenate(chain: seq<PageRead>, maxlen: nat, filter: Filter)
    requires Chain(chain, maxlen, filter) && chain != []
    requires forall i :: 0 <= i < |chain| ==> Oldest(maxlen, |chain[i].log|) <= chain[i].From()
    ensures var last := chain[|chain| - 1];
            chain[0].From() <= last.next <= |last.log| && Pages(chain) == Selected(last.log[chain[0].From()..last.next], filter)
  {
    var n := |chain| - 1;
    var last, from := chain[n], chain[0].From();
    if n == 0 {
      assert Pages(chain[..0]) == [];
      PageSelects(maxlen, last.log, last.cursor, filter, last.limit);
    } else {
      ChainPrefix(chain, maxlen, filter);
      PagesConcatenate(chain[..n], maxlen, filter);
      assert chain[..n][n - 1] == chain[n - 1] && chain[..n][0] == chain[0];
      NextPageJoins(chain[n - 1].log, from, last, maxlen, filter);
    }
  }
}
