/** The single-worker execution queue: submissions, the worker and cancellations, interleaved. */
module Executions {
  import opened Wrappers

  type JobId = string

  datatype JobState = QUEUED | RUNNING | DONE | ERROR | CANCELLED {
    predicate Terminal() {
      DONE? || ERROR? || CANCELLED?
    }
  }

  // Where the worker thread is inside _run.  A failing callable first makes the state ERROR, then
  // stores the exception; _running is cleared last.
  datatype Worker = Idle | Executing(job: nat) | Failing(job: nat) | Leaving(job: nat)

  // Jobs are numbered in submission order.  retained holds the ids _jobs still lists, pending what the
  // executor has not handed to the worker, started (a history variable) the callables that were called.
  datatype Queue = Queue(
    ids: seq<JobId>, states: seq<JobState>, errors: seq<bool>,
    maxJobs: nat, retained: seq<JobId>,
    pending: seq<nat>, running: Option<nat>, worker: Worker, started: seq<nat>)

  datatype Event =
    | Submit(id: JobId)
    | Take
    | Returns
    | Raises
    | StoreError
    | Leave
    | Cancel(id: JobId)

  function Empty(maxJobs: nat): Queue {
    Queue([], [], [], maxJobs, [], [], None, Idle, [])
  }

  /** popitem(last=False) until no more than the limit is left. */
  function Trim(retained: seq<JobId>, maxJobs: nat): seq<JobId> {
    if |retained| <= maxJobs then retained else Trim(retained[1..], maxJobs)
  }

  /** Number of the job with this id. */
  function IndexOf(ids: seq<JobId>, id: JobId): (index: nat)
    requires id in ids
    ensures index < |ids| && ids[index] == id
  {
    if ids[0] == id then 0 else 1 + IndexOf(ids[1..], id)
  }

  /** What cancel answers: only a job that is still listed and still queued can be cancelled. */
  predicate CanCancel(q: Queue, id: JobId)
    requires |q.states| == |q.ids|
  {
    id in q.retained && id in q.ids && q.states[IndexOf(q.ids, id)].QUEUED?
  }

  predicate Sized(q: Queue) {
    && |q.states| == |q.ids| && |q.errors| == |q.ids|
    && (forall i :: 0 <= i < |q.pending| ==> q.pending[i] < |q.ids|)
    && (!q.worker.Idle? ==> q.worker.job < |q.ids|)
  }

  predicate Possible(q: Queue, e: Event) {
    Sized(q) &&
    match e
    case Submit(id) => id !in q.ids
    case Take => q.worker.Idle? && q.pending != []
    case Returns => q.worker.Executing?
    case Raises => q.worker.Executing?
    case StoreError => q.worker.Failing?
    case Leave => q.worker.Leaving?
    case Cancel(id) => true
  }

  /** The worker takes the next job; the lock decides whether it was cancelled first. */
  function TakeNext(q: Queue): Queue
    requires Sized(q) && q.pending != []
  {
    var job := q.pending[0];
    if q.states[job].CANCELLED? then q.(pending := q.pending[1..])
    else
      q.(pending := q.pending[1..], states := q.states[job := RUNNING], running := Some(job),
         worker := Executing(job), started := q.started + [job])
  }

  function DoCancel(q: Queue, id: JobId): Queue
    requires Sized(q)
  {
    if CanCancel(q, id) then q.(states := q.states[IndexOf(q.ids, id) := CANCELLED]) else q
  }

  function Step(q: Queue, e: Event): Queue
    requires Possible(q, e)
  {
    match e
    case Submit(id) =>
      q.(ids := q.ids + [id], states := q.states + [QUEUED], errors := q.errors + [false],
         retained := Trim(q.retained + [id], q.maxJobs), pending := q.pending + [|q.ids|])
    case Take => TakeNext(q)
    case Returns => q.(states := q.states[q.worker.job := DONE], worker := Leaving(q.worker.job))
    case Raises => q.(states := q.states[q.worker.job := ERROR], worker := Failing(q.worker.job))
    case StoreError => q.(errors := q.errors[q.worker.job := true], worker := Leaving(q.worker.job))
    case Leave => q.(running := None, worker := Idle)
    case Cancel(id) => DoCancel(q, id)
  }

  predicate CanRun(q: Queue, events: seq<Event>)
    decreases |events|
  {
    events == [] || (Possible(q, events[0]) && CanRun(Step(q, events[0]), events[1..]))
  }

  function Run(q: Queue, events: seq<Event>): Queue
    requires CanRun(q, events)
    decreases |events|
  {
    if events == [] then q else Run(Step(q, events[0]), events[1..])
  }

  // ---- the invariant

  ghost predicate DistinctIds(ids: seq<JobId>) {
    forall i, j :: 0 <= i < j < |ids| ==> ids[i] != ids[j]
  }

  /** Number of the first job the executor still holds. */
  function Taken(q: Queue): int {
    |q.ids| - |q.pending|
  }

  ghost predicate Busy(q: Queue, job: nat) {
    !q.worker.Idle? && q.worker.job == job
  }

  /** The executor hands jobs out in submission order: it always holds a tail of the submissions. */
  ghost predicate PendingInv(q: Queue) {
    && Sized(q) && |q.pending| <= |q.ids|
    && (forall i :: 0 <= i < |q.pending| ==> q.pending[i] == Taken(q) + i)
    && (forall j :: Taken(q) <= j < |q.ids| ==> q.states[j].QUEUED? || q.states[j].CANCELLED?)
  }

  ghost predicate WorkerInv(q: Queue)
    requires Sized(q)
  {
    && q.running == (if q.worker.Idle? then None else Some(q.worker.job))
    && (!q.worker.Idle? ==> q.started != [] && q.started[|q.started| - 1] == q.worker.job && q.worker.job < Taken(q))
    && (q.worker.Executing? ==> q.states[q.worker.job].RUNNING?)
    && (q.worker.Failing? ==> q.states[q.worker.job].ERROR? && !q.errors[q.worker.job])
    && (q.worker.Leaving? ==> q.states[q.worker.job].DONE? || q.states[q.worker.job].ERROR?)
    && (forall j :: 0 <= j < Taken(q) && !Busy(q, j) ==> q.states[j].Terminal())
    && (forall j :: 0 <= j < |q.ids| ==> (q.errors[j] ==> q.states[j].ERROR?))
    && (forall j :: 0 <= j < |q.ids| && q.states[j].ERROR? && !q.errors[j] ==> q.worker == Failing(j))
  }

  /** The callables called are, in order, the taken jobs that were not cancelled. */
  ghost predicate StartedInv(q: Queue)
    requires Sized(q)
  {
    && (forall i, j :: 0 <= i < j < |q.started| ==> q.started[i] < q.started[j])
    && (forall i :: 0 <= i < |q.started| ==> q.started[i] < Taken(q) && q.started[i] < |q.ids| && !q.states[q.started[i]].CANCELLED?)
    && (forall j :: 0 <= j < Taken(q) && !q.states[j].CANCELLED? ==> j in q.started)
  }

  ghost predicate QueueInv(q: Queue) {
    && PendingInv(q) && WorkerInv(q) && StartedInv(q)
    && DistinctIds(q.ids)
    && q.retained == q.ids[if |q.ids| <= q.maxJobs then 0 else |q.ids| - q.maxJobs..]
  }

  lemma EmptyInv(maxJobs: nat)
    ensures QueueInv(Empty(maxJobs))
  {
  }

  lemma {:induction false} TrimIsTail(retained: seq<JobId>, maxJobs: nat)
    ensures Trim(retained, maxJobs) == retained[if |retained| <= maxJobs then 0 else |retained| - maxJobs..]
  {
    if |retained| > maxJobs {
      TrimIsTail(retained[1..], maxJobs);
    }
  }

  lemma SubmitKeepsInv(q: Queue, id: JobId)
    requires QueueInv(q) && Possible(q, Submit(id))
    ensures QueueInv(Step(q, Submit(id)))
  {
    TrimIsTail(q.retained + [id], q.maxJobs);
  }

  lemma TakeKeepsInv(q: Queue)
    requires QueueInv(q) && Possible(q, Take)
    ensures QueueInv(TakeNext(q))
  {
    var job := q.pending[0];
    if !q.states[job].CANCELLED? {
      StartKeepsInv(q, job);
    }
  }

  lemma StartKeepsInv(q: Queue, job: nat)
    requires QueueInv(q) && q.worker.Idle? && q.pending != [] && q.pending[0] == job && q.states[job].QUEUED?
    ensures QueueInv(TakeNext(q))
  {
  }

  /** Only a job the worker has not taken can be cancelled. */
  lemma CancellableIsPending(q: Queue, id: JobId)
    requires QueueInv(q) && CanCancel(q, id)
    ensures Taken(q) <= IndexOf(q.ids, id) && IndexOf(q.ids, id) !in q.started
  {
  }

  lemma CancelKeepsInv(q: Queue, id: JobId)
    requires QueueInv(q)
    ensures QueueInv(DoCancel(q, id))
  {
    if CanCancel(q, id) {
      CancellableIsPending(q, id);
      PendingCancelled(q, IndexOf(q.ids, id));
    }
  }

  lemma PendingCancelled(q: Queue, job: nat)
    requires QueueInv(q) && Taken(q) <= job < |q.ids| && q.states[job].QUEUED?
    ensures QueueInv(q.(states := q.states[job := CANCELLED]))
  {
  }

  lemma WorkerKeepsInv(q: Queue, e: Event)
    requires QueueInv(q) && Possible(q, e) && (e.Returns? || e.Raises? || e.StoreError? || e.Leave?)
    ensures QueueInv(Step(q, e))
  {
    if e.Returns? || e.Raises? {
      EndKeepsInv(q, e);
    }
  }

  lemma EndKeepsInv(q: Queue, e: Event)
    requires QueueInv(q) && Possible(q, e) && (e.Returns? || e.Raises?)
    ensures QueueInv(Step(q, e))
  {
  }

  lemma StepKeepsInv(q: Queue, e: Event)
    requires QueueInv(q) && Possible(q, e)
    ensures QueueInv(Step(q, e))
  {
    match e
    case Submit(id) => SubmitKeepsInv(q, id);
    case Take => TakeKeepsInv(q);
    case Cancel(id) => CancelKeepsInv(q, id);
    case _ => WorkerKeepsInv(q, e);
  }

  lemma {:induction false} RunKeepsInv(q: Queue, events: seq<Event>)
    requires QueueInv(q) && CanRun(q, events)
    ensures QueueInv(Run(q, events))
    decreases |events|
  {
    if events != [] {
      StepKeepsInv(q, events[0]);
      RunKeepsInv(Step(q, events[0]), events[1..]);
    }
  }

  // ---- over whole runs

  /**
   * However submissions, cancellations and the worker interleave: at most one job runs and _running
   * names it; callables are called in submission order, none twice, and none of a cancelled job.
   */
  lemma OneAtATimeInOrder(maxJobs: nat, events: seq<Event>)
    requires CanRun(Empty(maxJobs), events)
    ensures var q := Run(Empty(maxJobs), events);
            && |q.states| == |q.ids|
            && (forall j :: 0 <= j < |q.ids| && q.states[j].RUNNING? ==> q.running == Some(j))
            && (forall i, j :: 0 <= i < j < |q.started| ==> q.started[i] < q.started[j])
            && (forall j :: j in q.started ==> j < |q.ids| && !q.states[j].CANCELLED?)
            && (q.pending == [] ==> forall j :: 0 <= j < |q.ids| ==> j in q.started || q.states[j].CANCELLED?)
  {
    EmptyInv(maxJobs);
    RunKeepsInv(Empty(maxJobs), events);
  }

  /** A step changes no terminal state, takes no call back and calls nothing that is cancelled. */
  lemma StepIsMonotone(q: Queue, e: Event)
    requires QueueInv(q) && Possible(q, e)
    ensures q.ids <= Step(q, e).ids && q.started <= Step(q, e).started && |Step(q, e).states| >= |q.states|
    ensures forall j :: 0 <= j < |q.states| && q.states[j].Terminal() ==> Step(q, e).states[j] == q.states[j]
  {
  }

  lemma {:induction false} RunIsMonotone(q: Queue, events: seq<Event>)
    requires QueueInv(q) && CanRun(q, events)
    ensures QueueInv(Run(q, events))
    ensures q.ids <= Run(q, events).ids && q.started <= Run(q, events).started && |Run(q, events).states| >= |q.states|
    ensures forall j :: 0 <= j < |q.states| && q.states[j].Terminal() ==> Run(q, events).states[j] == q.states[j]
    decreases |events|
  {
    if events != [] {
      StepKeepsInv(q, events[0]);
      StepIsMonotone(q, events[0]);
      RunIsMonotone(Step(q, events[0]), events[1..]);
    }
  }

  /**
   * A cancel takes effect exactly on a job among the newest submissions that is still queued,
   * whatever the worker is doing, and then on no other job; any other cancel changes nothing.
   */
  lemma CancelTakesEffectIff(maxJobs: nat, events: seq<Event>, j: nat)
    requires CanRun(Empty(maxJobs), events) && j < |Run(Empty(maxJobs), events).ids|
    ensures var q := Run(Empty(maxJobs), events);
            && Possible(q, Cancel(q.ids[j])) && |q.states| == |q.ids|
            && Step(q, Cancel(q.ids[j]))
               == if q.states[j].QUEUED? && |q.ids| - j <= maxJobs then q.(states := q.states[j := CANCELLED]) else q
  {
    EmptyInv(maxJobs);
    RunKeepsInv(Empty(maxJobs), events);
    Retention(maxJobs, events);
    IndexIsUnique(Run(Empty(maxJobs), events).ids, j);
  }

  lemma CancelOfUnknown(q: Queue, id: JobId)
    requires QueueInv(q) && id !in q.ids
    ensures Possible(q, Cancel(id)) && Step(q, Cancel(id)) == q
  {
  }

  /** A job the worker takes ends DONE if its callable returns and ERROR with the exception stored if it raises. */
  lemma TakenJobEnds(q: Queue)
    requires QueueInv(q) && q.worker.Idle? && q.pending != [] && q.states[q.pending[0]].QUEUED?
    ensures var job := q.pending[0];
            && CanRun(q, [Take, Returns, Leave]) && CanRun(q, [Take, Raises, StoreError, Leave])
            && var done, failed := Run(q, [Take, Returns, Leave]), Run(q, [Take, Raises, StoreError, Leave]);
               && done.states == q.states[job := DONE] && done.errors == q.errors
               && failed.states == q.states[job := ERROR] && failed.errors == q.errors[job := true]
               && done.started == q.started + [job] && failed.started == q.started + [job]
               && done.worker.Idle? && done.running.None? && failed.worker.Idle? && failed.running.None?
               && done.pending == q.pending[1..] && failed.pending == q.pending[1..]
  {
    var job := q.pending[0];
    var taken := Step(q, Take);
    assert taken.worker == Executing(job) && Possible(taken, Returns) && Possible(taken, Raises);
    RunThen(q, Take, [Returns, Leave]);
    RunThen(taken, Returns, [Leave]);
    RunThen(Step(taken, Returns), Leave, []);
    RunThen(q, Take, [Raises, StoreError, Leave]);
    RunThen(taken, Raises, [StoreError, Leave]);
    RunThen(Step(taken, Raises), StoreError, [Leave]);
    RunThen(Step(Step(taken, Raises), StoreError), Leave, []);
    assert q.states[job := RUNNING][job := DONE] == q.states[job := DONE];
    assert q.states[job := RUNNING][job := ERROR] == q.states[job := ERROR];
  }

  lemma RunThen(q: Queue, e: Event, rest: seq<Event>)
    requires Possible(q, e)
    ensures CanRun(Step(q, e), rest) ==> CanRun(q, [e] + rest) && Run(q, [e] + rest) == Run(Step(q, e), rest)
  {
    assert ([e] + rest)[1..] == rest;
  }

  /** A cancel that answered True is final: the callable is never called, whatever happens afterwards. */
  lemma CancelledNeverRuns(q: Queue, id: JobId, events: seq<Event>)
    requires QueueInv(q) && CanCancel(q, id) && CanRun(Step(q, Cancel(id)), events)
    ensures var job := IndexOf(q.ids, id);
            var end := Run(Step(q, Cancel(id)), events);
            job !in end.started && |end.states| > job && end.states[job].CANCELLED?
  {
    CancelKeepsInv(q, id);
    StaysCancelled(Step(q, Cancel(id)), IndexOf(q.ids, id), events);
  }

  lemma StaysCancelled(q: Queue, job: nat, events: seq<Event>)
    requires QueueInv(q) && job < |q.ids| && q.states[job].CANCELLED? && CanRun(q, events)
    ensures job !in Run(q, events).started && |Run(q, events).states| > job && Run(q, events).states[job].CANCELLED?
  {
    RunIsMonotone(q, events);
  }

  /** A callable that has been called is never cancelled afterwards, and every later cancel of it answers False. */
  lemma StartedNeverCancelled(q: Queue, job: nat, events: seq<Event>)
    requires QueueInv(q) && job in q.started && CanRun(q, events)
    ensures var end := Run(q, events);
            job < |end.ids| && |end.states| == |end.ids| && !end.states[job].CANCELLED? && !CanCancel(end, end.ids[job])
  {
    RunIsMonotone(q, events);
    var end := Run(q, events);
    assert job in end.started;
    IndexIsUnique(end.ids, job);
  }

  lemma {:induction false} IndexIsUnique(ids: seq<JobId>, job: nat)
    requires DistinctIds(ids) && job < |ids|
    ensures IndexOf(ids, ids[job]) == job
  {
  }

  /** all_jobs lists exactly the newest submissions, whatever their states, and get finds exactly those. */
  lemma Retention(maxJobs: nat, events: seq<Event>)
    requires CanRun(Empty(maxJobs), events)
    ensures var q := Run(Empty(maxJobs), events);
            var first := if |q.ids| <= maxJobs then 0 else |q.ids| - maxJobs;
            && q.retained == q.ids[first..]
            && (forall j :: 0 <= j < |q.ids| ==> (q.ids[j] in q.retained <==> first <= j))
  {
    EmptyInv(maxJobs);
    RunKeepsInv(Empty(maxJobs), events);
    KeepsLimit(Empty(maxJobs), events);
    var q := Run(Empty(maxJobs), events);
    var first := if |q.ids| <= maxJobs then 0 else |q.ids| - maxJobs;
    forall j | 0 <= j < |q.ids| ensures q.ids[j] in q.retained <==> first <= j {
      if first <= j {
        assert q.retained[j - first] == q.ids[j];
      }
    }
  }

  lemma {:induction false} KeepsLimit(q: Queue, events: seq<Event>)
    requires CanRun(q, events)
    ensures Run(q, events).maxJobs == q.maxJobs
    decreases |events|
  {
    if events != [] {
      KeepsLimit(Step(q, events[0]), events[1..]);
    }
  }

  // ---- the queue and its jobs as live objects

  class Job {
    const id: JobId
    var state: JobState
    var error: bool

    constructor (id: JobId)
      ensures this.id == id && state == QUEUED && !error
    {
      this.id := id;
      state, error := QUEUED, false;
    }

    /** Changes the state of this job and of no other in the list. */
    method Enter(next: JobState, ghost all: seq<Job>, ghost number: nat)
      requires number < |all| && all[number] == this && forall i, j :: 0 <= i < j < |all| ==> all[i] != all[j]
      modifies this`state
      ensures state == next && Errors(all) == old(Errors(all)) && States(all) == old(States(all))[number := next]
    {
      state := next;
      assert Errors(all) == old(Errors(all));
      assert States(all) == old(States(all))[number := next];
    }

    /** Stores the exception of this job and of no other in the list. */
    method Fail(ghost all: seq<Job>, ghost number: nat)
      requires number < |all| && all[number] == this && forall i, j :: 0 <= i < j < |all| ==> all[i] != all[j]
      modifies this`error
      ensures error && States(all) == old(States(all)) && Errors(all) == old(Errors(all))[number := true]
    {
      error := true;
      assert States(all) == old(States(all));
      assert Errors(all) == old(Errors(all))[number := true];
    }
  }

  class ExecutionQueue {
    const maxJobs: nat
    var jobs: seq<Job>
    var executor: seq<Job>
    var running: Job?
    ghost var worker: Worker
    ghost var all: seq<Job>
    ghost var pending: seq<nat>
    ghost var started: seq<nat>

    /** The lists hold submitted jobs; jobs have ids and identities of their own. */
    ghost predicate Valid()
      reads this
    {
      && (forall i, j :: 0 <= i < j < |all| ==> all[i] != all[j] && all[i].id != all[j].id)
      && (forall job :: job in jobs ==> job in all)
      && |executor| == |pending| && (forall i :: 0 <= i < |pending| ==> pending[i] < |all| && executor[i] == all[pending[i]])
      && (!worker.Idle? ==> worker.job < |all|)
      && running == (if worker.Idle? then null else all[worker.job])
    }

    ghost function View(): (q: Queue)
      reads this, all
      ensures |q.ids| == |all| && |q.states| == |all| && |q.errors| == |all|
    {
      Queue(Ids(all), States(all), Errors(all), maxJobs, Ids(jobs), pending,
            if worker.Idle? then None else Some(worker.job), worker, started)
    }

    constructor (maxJobs: nat)
      ensures Valid() && View() == Empty(maxJobs)
    {
      this.maxJobs := maxJobs;
      jobs, executor, running := [], [], null;
      worker, all, pending, started := Idle, [], [], [];
    }

    /** Lists a job, dropping the oldest ones beyond the limit. */
    method Record(job: Job)
      requires Valid() && job in all
      modifies this`jobs
      ensures Valid() && View() == old(View()).(retained := Trim(old(View()).retained + [job.id], maxJobs))
    {
      jobs := jobs + [job];
      assert Ids(jobs) == old(Ids(jobs)) + [job.id];
      while |jobs| > maxJobs
        invariant forall j :: j in jobs ==> j in all
        invariant Trim(Ids(jobs), maxJobs) == Trim(old(Ids(jobs)) + [job.id], maxJobs)
      {
        assert Ids(jobs[1..]) == Ids(jobs)[1..];
        jobs := jobs[1..];
      }
    }

    /** Records a new job and hands it to the executor. */
    method SubmitJob(id: JobId) returns (job: Job)
      requires Valid() && Possible(View(), Submit(id))
      modifies this
      ensures fresh(job) && job.id == id && all == old(all) + [job]
      ensures Valid() && View() == Step(old(View()), Submit(id))
    {
      ghost var before := View();
      job := new Job(id);
      assert View() == before;
      Note(job);
      Record(job);
      Enqueue(job);
    }

    /** From now on the job counts as submitted. */
    ghost method Note(job: Job)
      requires Valid() && job.id !in Ids(all) && job.state.QUEUED? && !job.error
      modifies this`all
      ensures Valid() && all == old(all) + [job] && Ids(jobs) == old(Ids(jobs))
      ensures var q := old(View());
              View() == q.(ids := q.ids + [job.id], states := q.states + [QUEUED], errors := q.errors + [false])
    {
      assert forall i :: 0 <= i < |all| ==> all[i].id == Ids(all)[i];
      AllGrows(all, job);
      all := all + [job];
    }

    /** run_in_executor: the job waits for its turn. */
    method Enqueue(job: Job)
      requires Valid() && all != [] && all[|all| - 1] == job
      modifies this`executor, this`pending
      ensures Valid() && View() == old(View()).(pending := old(pending) + [|all| - 1])
    {
      executor := executor + [job];
      pending := pending + [|all| - 1];
    }

    /** The locked start of _run: a cancelled job is dropped, any other becomes the running one. */
    method StartNext()
      requires Valid() && Possible(View(), Take)
      modifies this, all
      ensures Valid() && View() == Step(old(View()), Take)
    {
      var job := executor[0];
      ghost var number := pending[0];
      executor := executor[1..];
      pending := pending[1..];
      if !job.state.CANCELLED? {
        Begin(job, number);
      }
    }

    method Begin(job: Job, ghost number: nat)
      requires Valid() && number < |all| && all[number] == job
      modifies this`running, this`worker, this`started, job
      ensures Valid() && View() == old(View()).(states := old(View()).states[number := RUNNING], running := Some(number),
                                                worker := Executing(number), started := old(View()).started + [number])
    {
      job.Enter(RUNNING, all, number);
      running := job;
      started := started + [number];
      worker := Executing(number);
    }

    /** The callable came back. */
    method CallReturns()
      requires Valid() && Possible(View(), Returns)
      modifies this`worker, all
      ensures Valid() && View() == Step(old(View()), Returns)
    {
      running.Enter(DONE, all, worker.job);
      worker := Leaving(worker.job);
    }

    /** The callable raised: the state changes first, the exception is stored next. */
    method CallRaises()
      requires Valid() && Possible(View(), Raises)
      modifies this`worker, all
      ensures Valid() && View() == Step(old(View()), Raises)
    {
      running.Enter(ERROR, all, worker.job);
      worker := Failing(worker.job);
    }

    method StoreException()
      requires Valid() && Possible(View(), StoreError)
      modifies this`worker, all
      ensures Valid() && View() == Step(old(View()), StoreError)
    {
      ghost var before, number := View(), worker.job;
      running.Fail(all, number);
      assert View() == before.(errors := before.errors[number := true]);
      MoveOn();
    }

    ghost method MoveOn()
      requires Valid() && worker.Failing?
      modifies this`worker
      ensures Valid() && View() == old(View()).(worker := Leaving(old(worker).job))
    {
      worker := Leaving(worker.job);
    }

    method LeaveJob()
      requires Valid() && Possible(View(), Leave)
      modifies this`worker, this`running
      ensures Valid() && View() == Step(old(View()), Leave)
    {
      running := null;
      worker := Idle;
    }

    /** The dictionary lookup: finds a job exactly while it is listed. */
    method Get(id: JobId) returns (job: Job?)
      requires Valid()
      ensures job != null <==> id in View().retained
      ensures job != null <==> exists listed :: listed in jobs && listed.id == id
      ensures job != null ==> job in jobs && job in all && job.id == id && forall other :: other in all && other.id == id ==> other == job
    {
      job := null;
      for i := 0 to |jobs|
        invariant job == null && forall k :: 0 <= k < i ==> jobs[k].id != id
      {
        if jobs[i].id == id {
          assert Ids(jobs)[i] == id;
          OnlyOneHas(all, jobs[i]);
          return jobs[i];
        }
      }
    }

    method CancelJob(id: JobId) returns (cancelled: bool)
      requires Valid()
      modifies all
      ensures |old(View()).states| == |old(View()).ids| && cancelled == CanCancel(old(View()), id)
      ensures cancelled <==> exists job :: job in jobs && job.id == id && old(job.state) == QUEUED
      ensures forall job :: job in all ==> job.state == if cancelled && job.id == id then CANCELLED else old(job.state)
      ensures Valid() && View() == DoCancel(old(View()), id)
    {
      var job := Get(id);
      if job == null || job.state != QUEUED {
        if job != null {
          IndexOfJob(all, job);
        }
        return false;
      }
      IndexOfJob(all, job);
      job.Enter(CANCELLED, all, IndexOf(Ids(all), id));
      return true;
    }
  }

  ghost function Ids(jobs: seq<Job>): (ids: seq<JobId>)
    ensures |ids| == |jobs| && forall i :: 0 <= i < |jobs| ==> ids[i] == jobs[i].id
  {
    seq(|jobs|, i requires 0 <= i < |jobs| => jobs[i].id)
  }

  ghost function States(jobs: seq<Job>): (states: seq<JobState>)
    reads jobs
    ensures |states| == |jobs| && forall i :: 0 <= i < |jobs| ==> states[i] == jobs[i].state
  {
    seq(|jobs|, i requires 0 <= i < |jobs| reads jobs => jobs[i].state)
  }

  ghost function Errors(jobs: seq<Job>): (errors: seq<bool>)
    reads jobs
    ensures |errors| == |jobs| && forall i :: 0 <= i < |jobs| ==> errors[i] == jobs[i].error
  {
    seq(|jobs|, i requires 0 <= i < |jobs| reads jobs => jobs[i].error)
  }

  lemma AllGrows(all: seq<Job>, job: Job)
    ensures Ids(all + [job]) == Ids(all) + [job.id]
    ensures States(all + [job]) == States(all) + [job.state] && Errors(all + [job]) == Errors(all) + [job.error]
  {
  }

  lemma OnlyOneHas(all: seq<Job>, job: Job)
    requires job in all && forall i, j :: 0 <= i < j < |all| ==> all[i].id != all[j].id
    ensures forall other :: other in all && other.id == job.id ==> other == job
  {
    var i :| 0 <= i < |all| && all[i] == job;
    forall other | other in all && other.id == job.id ensures other == job {
      var j :| 0 <= j < |all| && all[j] == other;
      assert !(i < j) && !(j < i);
    }
  }

  lemma IndexOfJob(jobs: seq<Job>, job: Job)
    requires job in jobs && forall i, j :: 0 <= i < j < |jobs| ==> jobs[i].id != jobs[j].id
    ensures job.id in Ids(jobs) && jobs[IndexOf(Ids(jobs), job.id)] == job
  {
    var i :| 0 <= i < |jobs| && jobs[i] == job;
    assert Ids(jobs)[i] == job.id;
  }
}
