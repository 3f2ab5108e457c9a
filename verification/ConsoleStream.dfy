/** The server-sent event stream: buffered history from a cursor, then the live console. */
module ConsoleStreams {
  import opened Consoles
  import opened Wrappers

  const READ_LIMIT := 50_000

  // One open stream, the log of the buffer it reads and the queue it subscribed.  readAt is the
  // length of the log when the history was read, done counts the history events gone through.
  datatype Stream = Stream(
    maxlen: nat, device: Option<string>, cursor: int,
    log: seq<Event>, liveFrom: nat,
    readAt: Option<nat>, past: seq<Event>, done: nat,
    queue: seq<Event>, sent: seq<Event>)

  // Appends come from the worker thread at any moment; the other steps are the generator's own.
  datatype Move = Append(event: Event) | ReadHistory | SendPast | SendLive

  function DeviceFilter(device: Option<string>): Filter {
    Filter(device, None, None)
  }

  /** Subscribing and noting the head of the log happen in one step. */
  function Open(maxlen: nat, device: Option<string>, cursor: int, log: seq<Event>): Stream {
    Stream(maxlen, device, cursor, log, |log|, None, [], 0, [], [])
  }

  predicate Possible(s: Stream, m: Move) {
    match m
    case Append(event) => event.seqNo == |s.log|
    case ReadHistory => s.readAt.None?
    case SendPast => s.readAt.Some? && s.done < |s.past|
    case SendLive => s.readAt.Some? && s.done == |s.past| && s.queue != []
  }

  function Step(s: Stream, m: Move): Stream
    requires Possible(s, m)
  {
    match m
    case Append(event) => s.(log := s.log + [event], queue := s.queue + [event])
    case ReadHistory => s.(readAt := Some(|s.log|), past := Page(s.maxlen, s.log, s.cursor, DeviceFilter(s.device), READ_LIMIT).0)
    case SendPast =>
      var event := s.past[s.done];
      s.(done := s.done + 1, sent := if event.seqNo < s.liveFrom then s.sent + [event] else s.sent)
    case SendLive =>
      var event := s.queue[0];
      s.(queue := s.queue[1..], sent := if Matches(DeviceFilter(s.device), event) then s.sent + [event] else s.sent)
  }

  predicate CanRun(s: Stream, moves: seq<Move>)
    decreases |moves|
  {
    moves == [] || (Possible(s, moves[0]) && CanRun(Step(s, moves[0]), moves[1..]))
  }

  function Run(s: Stream, moves: seq<Move>): Stream
    requires CanRun(s, moves)
    decreases |moves|
  {
    if moves == [] then s else Run(Step(s, moves[0]), moves[1..])
  }

  /** The history events that are sent: those numbered before the live part. */
  function Early(events: seq<Event>, bound: nat): seq<Event> {
    if events == [] then []
    else
      var n := |events| - 1;
      if events[n].seqNo < bound then Early(events[..n], bound) + [events[n]] else Early(events[..n], bound)
  }

  /** First event the stream is answerable for: the cursor or the oldest retained one, but never past the live part. */
  function Base(s: Stream): (base: nat)
    requires s.readAt.Some? && s.readAt.value <= |s.log|
    ensures base <= s.liveFrom
  {
    var start := PageStart(s.maxlen, s.log[..s.readAt.value], s.cursor);
    if start <= s.liveFrom then start else s.liveFrom
  }

  /** The queue is the tail of the log, and lies in its live part. */
  ghost predicate Queued(s: Stream) {
    s.liveFrom + |s.queue| <= |s.log| && s.queue == s.log[|s.log| - |s.queue|..]
  }

  /** The early part of what is done of the history, and the live part that has left the queue. */
  ghost predicate SentInv(s: Stream) {
    && s.done <= |s.past| && s.liveFrom + |s.queue| <= |s.log|
    && s.sent == Early(s.past[..s.done], s.liveFrom) + Selected(s.log[s.liveFrom..|s.log| - |s.queue|], DeviceFilter(s.device))
  }

  ghost predicate StreamInv(s: Stream) {
    && Numbered(s.log)
    && Queued(s) && SentInv(s)
    && (s.readAt.None? ==> s.past == [])
    && (s.readAt.Some? ==> HistoryInv(s))
    && (s.done < |s.past| || s.readAt.None? ==> s.liveFrom + |s.queue| == |s.log|)
  }

  ghost predicate HistoryInv(s: Stream)
    requires s.readAt.Some?
  {
    && s.liveFrom <= s.readAt.value <= |s.log|
    && s.past == Page(s.maxlen, s.log[..s.readAt.value], s.cursor, DeviceFilter(s.device), READ_LIMIT).0
  }

  lemma OpenInv(maxlen: nat, device: Option<string>, cursor: int, log: seq<Event>)
    requires Numbered(log)
    ensures StreamInv(Open(maxlen, device, cursor, log))
  {
  }

  lemma AppendKeepsInv(s: Stream, event: Event)
    requires StreamInv(s) && Possible(s, Append(event))
    ensures StreamInv(Step(s, Append(event)))
  {
    var s' := Step(s, Append(event));
    var k := |s.log| - |s.queue|;
    assert s'.log[s.liveFrom..k] == s.log[s.liveFrom..k];
    if s.readAt.Some? {
      assert s'.log[..s.readAt.value] == s.log[..s.readAt.value];
    }
  }

  lemma QueueHead(log: seq<Event>, queue: seq<Event>)
    requires |queue| <= |log| && queue == log[|log| - |queue|..] && queue != []
    ensures var k := |log| - |queue|; queue[0] == log[k] && queue[1..] == log[k + 1..]
  {
  }

  lemma SentGrows(early: seq<Event>, log: seq<Event>, live: nat, k: nat, filter: Filter)
    requires live <= k < |log|
    ensures early + Selected(log[live..k + 1], filter)
            == early + Selected(log[live..k], filter) + (if Matches(filter, log[k]) then [log[k]] else [])
  {
    SelectedGrows(log, live, k, filter);
  }

  lemma LiveSent(sent: seq<Event>, early: seq<Event>, log: seq<Event>, live: nat, queue: seq<Event>, filter: Filter)
    requires live + |queue| <= |log| && queue == log[|log| - |queue|..] && queue != []
    requires sent == early + Selected(log[live..|log| - |queue|], filter)
    ensures (if Matches(filter, queue[0]) then sent + [queue[0]] else sent) == early + Selected(log[live..|log| - |queue| + 1], filter)
  {
    QueueHead(log, queue);
    SentGrows(early, log, live, |log| - |queue|, filter);
  }

  lemma SendLiveKeepsSent(s: Stream)
    requires Queued(s) && SentInv(s) && Possible(s, SendLive)
    ensures Queued(Step(s, SendLive)) && SentInv(Step(s, SendLive))
  {
    var s', k := Step(s, SendLive), |s.log| - |s.queue|;
    assert |s.log| - |s'.queue| == k + 1;
    assert s'.queue == s.log[k + 1..];
    LiveSent(s.sent, Early(s.past[..s.done], s.liveFrom), s.log, s.liveFrom, s.queue, DeviceFilter(s.device));
    assert s'.sent == Early(s.past[..s.done], s.liveFrom) + Selected(s.log[s.liveFrom..k + 1], DeviceFilter(s.device));
  }

  lemma SendLiveKeepsInv(s: Stream)
    requires StreamInv(s) && Possible(s, SendLive)
    ensures StreamInv(Step(s, SendLive))
  {
    SendLiveKeepsSent(s);
    assert HistoryInv(Step(s, SendLive));
  }

  lemma ReadHistoryKeepsInv(s: Stream)
    requires StreamInv(s) && Possible(s, ReadHistory)
    ensures StreamInv(Step(s, ReadHistory))
  {
    assert s.log[..|s.log|] == s.log;
  }

  lemma SendPastKeepsInv(s: Stream)
    requires StreamInv(s) && Possible(s, SendPast)
    ensures StreamInv(Step(s, SendPast))
  {
    assert s.past[..s.done + 1][..s.done] == s.past[..s.done];
    assert s.log[s.liveFrom..s.liveFrom] == [];
  }

  lemma {:induction false} RunKeepsInv(s: Stream, moves: seq<Move>)
    requires StreamInv(s) && CanRun(s, moves)
    ensures StreamInv(Run(s, moves))
    ensures Run(s, moves).maxlen == s.maxlen && Run(s, moves).cursor == s.cursor
    ensures Run(s, moves).liveFrom == s.liveFrom && Run(s, moves).device == s.device && s.log <= Run(s, moves).log
    decreases |moves|
  {
    if moves != [] {
      var m := moves[0];
      match m {
        case Append(event) => AppendKeepsInv(s, event);
        case SendLive => SendLiveKeepsInv(s);
        case ReadHistory => ReadHistoryKeepsInv(s);
        case SendPast => SendPastKeepsInv(s);
      }
      RunKeepsInv(Step(s, m), moves[1..]);
    }
  }

  lemma {:induction false} EarlyConcat(a: seq<Event>, b: seq<Event>, bound: nat)
    ensures Early(a + b, bound) == Early(a, bound) + Early(b, bound)
  {
    if b == [] {
      assert a + b == a;
    } else {
      var n := |b| - 1;
      EarlyConcat(a, b[..n], bound);
      assert (a + b)[..|a + b| - 1] == a + b[..n];
    }
  }

  lemma {:induction false} EarlyOfSide(events: seq<Event>, bound: nat)
    ensures (forall e :: e in events ==> e.seqNo < bound) ==> Early(events, bound) == events
    ensures (forall e :: e in events ==> e.seqNo >= bound) ==> Early(events, bound) == []
  {
    if events != [] {
      var n := |events| - 1;
      EarlyOfSide(events[..n], bound);
      assert events == events[..n] + [events[n]];
    }
  }

  /** Of the history read, exactly the part before the live head is sent. */
  lemma EarlyOfSelected(log: seq<Event>, start: nat, end: nat, live: nat, filter: Filter)
    requires Numbered(log) && start <= end <= |log| && live <= end
    ensures Early(Selected(log[start..end], filter), live) == if start <= live then Selected(log[start..live], filter) else []
  {
    SelectedOrdered(log, start, end, filter);
    if start <= live {
      SelectedJoin(log, start, live, end, filter);
      SelectedOrdered(log, start, live, filter);
      SelectedOrdered(log, live, end, filter);
      EarlyConcat(Selected(log[start..live], filter), Selected(log[live..end], filter), live);
      EarlyOfSide(Selected(log[start..live], filter), live);
      EarlyOfSide(Selected(log[live..end], filter), live);
    } else {
      EarlyOfSide(Selected(log[start..end], filter), live);
    }
  }

  /** A deque no longer than the read limit can always be read in one go. */
  lemma HistoryIsComplete(maxlen: nat, log: seq<Event>, cursor: int, filter: Filter)
    requires maxlen <= READ_LIMIT
    ensures Page(maxlen, log, cursor, filter, READ_LIMIT).0 == Selected(log[PageStart(maxlen, log, cursor)..], filter)
  {
    SelectedMembers(log[PageStart(maxlen, log, cursor)..], filter);
    PageCompleteIff(maxlen, log, cursor, filter, READ_LIMIT);
  }

  lemma WholeHistory(s: Stream)
    requires StreamInv(s) && s.readAt.Some? && s.maxlen <= READ_LIMIT
    ensures Early(s.past, s.liveFrom) == Selected(s.log[Base(s)..s.liveFrom], DeviceFilter(s.device))
  {
    var n := s.readAt.value;
    var seen := s.log[..n];
    var start := PageStart(s.maxlen, seen, s.cursor);
    HistoryIsComplete(s.maxlen, seen, s.cursor, DeviceFilter(s.device));
    assert seen[start..] == s.log[start..n];
    EarlyOfSelected(s.log, start, n, s.liveFrom, DeviceFilter(s.device));
  }

  lemma ThreeParts(log: seq<Event>, base: nat, live: nat, head: nat, filter: Filter)
    requires base <= live <= head <= |log|
    ensures Selected(log[base..], filter)
            == Selected(log[base..live], filter) + (Selected(log[live..head], filter) + Selected(log[head..], filter))
  {
    SelectedJoin(log, base, live, |log|, filter);
    SelectedJoin(log, live, head, |log|, filter);
    assert log[base..|log|] == log[base..] && log[head..|log|] == log[head..];
  }

  lemma TwoParts(past: seq<Event>, done: nat, bound: nat)
    requires done <= |past|
    ensures Early(past, bound) == Early(past[..done], bound) + Early(past[done..], bound)
    ensures done == |past| ==> Early(past[done..], bound) == []
  {
    assert past == past[..done] + past[done..];
    EarlyConcat(past[..done], past[done..], bound);
  }

  /** What a stream still owes its client is what comes after what it has sent. */
  lemma SentIsPrefix(s: Stream)
    requires StreamInv(s) && s.readAt.Some? && s.maxlen <= READ_LIMIT
    ensures s.sent <= Selected(s.log[Base(s)..], DeviceFilter(s.device))
    ensures s.done == |s.past| && s.queue == [] ==> s.sent == Selected(s.log[Base(s)..], DeviceFilter(s.device))
  {
    var filter, k := DeviceFilter(s.device), |s.log| - |s.queue|;
    WholeHistory(s);
    TwoParts(s.past, s.done, s.liveFrom);
    ThreeParts(s.log, Base(s), s.liveFrom, k, filter);
    SentOfAll(Early(s.past[..s.done], s.liveFrom), Early(s.past[s.done..], s.liveFrom),
              Selected(s.log[s.liveFrom..k], filter), Selected(s.log[k..], filter));
  }

  lemma SentOfAll(early: seq<Event>, due: seq<Event>, live: seq<Event>, queued: seq<Event>)
    requires due == [] || live == []
    ensures early + live <= early + due + (live + queued)
    ensures due == [] && queued == [] ==> early + live == early + due + (live + queued)
  {
  }

  /**
   * Whatever is appended while the stream runs, the frames sent are a prefix of the filtered log from
   * its base: in order, none twice, none missing across the switch from history to live delivery;
   * and once the queue is drained nothing is missing at all.
   */
  lemma ExactlyOnce(maxlen: nat, device: Option<string>, cursor: int, log: seq<Event>, moves: seq<Move>)
    requires Numbered(log) && maxlen <= READ_LIMIT && CanRun(Open(maxlen, device, cursor, log), moves)
    ensures var s := Run(Open(maxlen, device, cursor, log), moves);
            if s.readAt.None? then s.sent == []
            else
              && s.readAt.value <= |s.log|
              && s.sent <= Selected(s.log[Base(s)..], DeviceFilter(device))
              && (s.done == |s.past| && s.queue == [] ==> s.sent == Selected(s.log[Base(s)..], DeviceFilter(device)))
  {
    OpenInv(maxlen, device, cursor, log);
    RunKeepsInv(Open(maxlen, device, cursor, log), moves);
    var s := Run(Open(maxlen, device, cursor, log), moves);
    if s.readAt.Some? {
      SentIsPrefix(s);
    } else {
      assert s.log[s.liveFrom..|s.log| - |s.queue|] == [];
    }
  }

  /** The number from which on a stream owes its client events: the cursor, or the oldest event retained at the read, but never past the head at the start. */
  function Owed(maxlen: nat, cursor: int, readAt: nat, live: nat): int {
    var oldest := if readAt <= maxlen then 0 else readAt - maxlen;
    var start := if cursor <= oldest then oldest else cursor;
    if start <= live then start else live
  }

  predicate OfDevice(device: Option<string>, event: Event) {
    device.None? || event.device == device
  }

  /** Events of the log and of the device, in order from a number on, with none left out before one that is there. */
  ghost predicate Gapless(log: seq<Event>, device: Option<string>, owed: int, sent: seq<Event>) {
    && (forall e :: e in sent ==> owed <= e.seqNo < |log| && log[e.seqNo] == e && OfDevice(device, e))
    && (forall i, j :: 0 <= i < j < |sent| ==> sent[i].seqNo < sent[j].seqNo)
    && (forall e, k: nat :: e in sent && owed <= k < e.seqNo && k < |log| && OfDevice(device, log[k]) ==> log[k] in sent)
  }

  lemma BeginningIsGapless(log: seq<Event>, device: Option<string>, base: nat, sent: seq<Event>)
    requires Numbered(log) && base <= |log| && sent <= Selected(log[base..], DeviceFilter(device))
    ensures Gapless(log, device, base, sent)
    ensures forall k :: sent == Selected(log[base..], DeviceFilter(device)) && base <= k < |log| && OfDevice(device, log[k]) ==> log[k] in sent
  {
    var all := Selected(log[base..], DeviceFilter(device));
    assert log[base..|log|] == log[base..];
    SelectedOrdered(log, base, |log|, DeviceFilter(device));
    BeginningHasNoGap(sent, all);
    forall k | base <= k < |log| && OfDevice(device, log[k]) ensures log[k] in all {
      assert Matches(DeviceFilter(device), log[k]);
    }
  }

  /**
   * The same, event by event: every frame is an event of the log, of the chosen device, from what is
   * owed; the numbers increase; no event of the device is left out before a frame that was sent; and
   * once the queue is drained none is left out at all.
   */
  lemma FramesAre(maxlen: nat, device: Option<string>, cursor: int, log: seq<Event>, moves: seq<Move>)
    requires Numbered(log) && maxlen <= 50_000 && CanRun(Open(maxlen, device, cursor, log), moves)
    requires Run(Open(maxlen, device, cursor, log), moves).readAt.Some?
    ensures var s := Run(Open(maxlen, device, cursor, log), moves);
            var owed := Owed(maxlen, cursor, s.readAt.value, |log|);
            && 0 <= owed <= |log| <= |s.log|
            && Gapless(s.log, device, owed, s.sent)
            && (s.done == |s.past| && s.queue == [] ==>
                  forall k :: owed <= k < |s.log| && OfDevice(device, s.log[k]) ==> s.log[k] in s.sent)
  {
    ExactlyOnce(maxlen, device, cursor, log, moves);
    OpenInv(maxlen, device, cursor, log);
    RunKeepsInv(Open(maxlen, device, cursor, log), moves);
    var s := Run(Open(maxlen, device, cursor, log), moves);
    assert Base(s) == Owed(maxlen, cursor, s.readAt.value, |log|);
    BeginningIsGapless(s.log, device, Base(s), s.sent);
  }

  lemma BeginningHasNoGap(sent: seq<Event>, all: seq<Event>)
    requires sent <= all && Increasing(all)
    ensures Increasing(sent) && forall e :: e in sent ==> e in all
    ensures forall e, f :: e in sent && f in all && f.seqNo < e.seqNo ==> f in sent
  {
    forall e, f | e in sent && f in all && f.seqNo < e.seqNo ensures f in sent {
      var i :| 0 <= i < |sent| && sent[i] == e;
      var j :| 0 <= j < |all| && all[j] == f;
      assert all[i] == e;
      assert j < i;
      assert sent[j] == f;
    }
  }

  ghost predicate NoAppend(moves: seq<Move>) {
    forall i :: 0 <= i < |moves| ==> !moves[i].Append?
  }

  /** Whatever it has sent so far, a stream can send everything it owes without waiting for anything. */
  lemma {:induction false} StreamCatchesUp(s: Stream) returns (moves: seq<Move>)
    requires s.done <= |s.past| && (s.readAt.None? ==> s.past == [])
    ensures CanRun(s, moves) && NoAppend(moves)
    ensures var e := Run(s, moves); e.readAt.Some? && e.done == |e.past| && e.queue == [] && e.log == s.log
    decreases if s.readAt.None? then 1 else 0, |s.past| - s.done + |s.queue|
  {
    if s.readAt.Some? && s.done == |s.past| && s.queue == [] {
      moves := [];
    } else {
      var m := if s.readAt.None? then ReadHistory else if s.done < |s.past| then SendPast else SendLive;
      var rest := CatchesUpAfter(s, m);
      assert ([m] + rest)[1..] == rest;
      moves := [m] + rest;
    }
  }

  lemma {:induction false} CatchesUpAfter(s: Stream, m: Move) returns (rest: seq<Move>)
    requires s.done <= |s.past| && Possible(s, m) && !m.Append?
    requires s.readAt.None? ==> s.past == []
    ensures CanRun(Step(s, m), rest) && NoAppend(rest)
    ensures var e := Run(Step(s, m), rest); e.readAt.Some? && e.done == |e.past| && e.queue == [] && e.log == s.log
    decreases if s.readAt.None? then 1 else 0, |s.past| - s.done + |s.queue|, 0
  {
    rest := StreamCatchesUp(Step(s, m));
  }

  ghost predicate NeverBelow(s: Stream, cursor: int) {
    forall moves :: CanRun(s, moves) ==> forall e :: e in Run(s, moves).sent ==> e.seqNo >= cursor
  }

  /** The live part does not look at the cursor: it is honoured exactly when it does not lie ahead of the head. */
  lemma CursorHonouredIff(maxlen: nat, device: Option<string>, cursor: int, log: seq<Event>)
    requires Numbered(log) && maxlen <= READ_LIMIT
    ensures NeverBelow(Open(maxlen, device, cursor, log), cursor) <==> cursor <= |log|
  {
    var s := Open(maxlen, device, cursor, log);
    if cursor <= |log| {
      forall moves | CanRun(s, moves) ensures forall e :: e in Run(s, moves).sent ==> e.seqNo >= cursor {
        FramesFromBase(maxlen, device, cursor, log, moves);
      }
    } else {
      var event := Event(|log|, "console", device, None, "");
      var moves := [ReadHistory, Append(event), SendLive];
      assert moves[1..] == [Append(event), SendLive] && moves[1..][1..] == [SendLive] && [SendLive][1..] == [];
      var read := Step(s, ReadHistory);
      PageSelects(maxlen, log, cursor, DeviceFilter(device), READ_LIMIT);
      assert log[|log|..] == [] && read.past == [];
      var live := Step(read, Append(event));
      var end := Step(live, SendLive);
      assert CanRun(end, []) && Run(end, []) == end;
      assert CanRun(live, [SendLive]) && Run(live, [SendLive]) == end;
      assert CanRun(read, moves[1..]) && Run(read, moves[1..]) == end;
      assert CanRun(s, moves) && Run(s, moves) == end && event in end.sent;
    }
  }

  lemma FramesFromBase(maxlen: nat, device: Option<string>, cursor: int, log: seq<Event>, moves: seq<Move>)
    requires Numbered(log) && maxlen <= READ_LIMIT && CanRun(Open(maxlen, device, cursor, log), moves) && cursor <= |log|
    ensures forall e :: e in Run(Open(maxlen, device, cursor, log), moves).sent ==> e.seqNo >= cursor
  {
    ExactlyOnce(maxlen, device, cursor, log, moves);
    OpenInv(maxlen, device, cursor, log);
    RunKeepsInv(Open(maxlen, device, cursor, log), moves);
    var s := Run(Open(maxlen, device, cursor, log), moves);
    if s.readAt.Some? {
      assert s.log[Base(s)..] == s.log[Base(s)..|s.log|];
      SelectedOrdered(s.log, Base(s), |s.log|, DeviceFilter(device));
    }
  }

  /** The generator on the live components. */
  class ConsoleStream {
    const buffer: EventBuffer
    const queue: Subscriber
    const device: Option<string>
    const cursor: int
    const liveFrom: nat
    var readAt: Option<nat>
    var past: seq<Event>
    var done: nat
    var sent: seq<Event>

    ghost predicate Valid()
      reads this, buffer, buffer.subscribers
    {
      && buffer.Valid() && queue in buffer.subscribers
    }

    ghost function View(): Stream
      reads this, buffer, queue
    {
      Stream(buffer.maxlen, device, cursor, buffer.log, liveFrom, readAt, past, done, queue.items, sent)
    }

    constructor (buffer: EventBuffer, device: Option<string>, cursor: int)
      requires buffer.Valid()
      modifies buffer`subscribers
      ensures Valid() && this.buffer == buffer
      ensures View() == Open(buffer.maxlen, device, cursor, buffer.log)
    {
      this.buffer := buffer;
      this.device, this.cursor := device, cursor;
      var subscription := buffer.Subscribe();
      queue := subscription;
      liveFrom := buffer.nextSeq;
      readAt, past, done, sent := None, [], 0, [];
    }

    method Read()
      requires Valid() && readAt.None?
      modifies this
      ensures Valid() && View() == Step(old(View()), ReadHistory)
    {
      var next: nat;
      past, next := buffer.Read(cursor, DeviceFilter(device), READ_LIMIT);
      readAt := Some(buffer.nextSeq);
    }

    method ReplayOne()
      requires Valid() && Possible(View(), SendPast)
      modifies this
      ensures Valid() && View() == Step(old(View()), SendPast)
    {
      var event := past[done];
      done := done + 1;
      if event.seqNo < liveFrom {
        sent := sent + [event];
      }
    }

    method FollowOne()
      requires Valid() && Possible(View(), SendLive)
      modifies this, queue
      ensures Valid() && View() == Step(old(View()), SendLive)
    {
      assert queue.items != [];
      var event := queue.Take();
      if device.Some? && event.device != device {
        return;
      }
      sent := sent + [event];
    }

    /** An append by another thread is a step of every open stream. */
    method AppendElsewhere(line: string, stream: string, from: Option<string>, job: Option<string>) returns (event: Event)
      requires Valid()
      modifies buffer, buffer.subscribers
      ensures event == Event(old(buffer.nextSeq), stream, from, job, line)
      ensures Possible(old(View()), Append(event))
      ensures Valid() && View() == Step(old(View()), Append(event))
    {
      event := buffer.Append(stream, from, job, line);
    }
  }
}
