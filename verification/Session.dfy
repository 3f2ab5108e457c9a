/** The agent session: configure and boot calls interleaved with the worker of the execution queue. */
module AgentSessions {
  import opened Executions
  import opened Wrappers

  datatype SessionState = CREATED | CONFIGURED | BOOTING | READY | FAILED

  type CallId = nat

  // Where a configure or boot call is suspended.  A boot request has passed the endpoint's check and
  // waits for its coroutine to start; a polling one watches the job it submitted.
  datatype Call = Configuring(job: nat) | Requested | Submitting | Polling(job: nat)

  // configures and boots count completed configures and submitted boot jobs; configureJobs and bootJobs
  // are the jobs these calls submitted, among the jobs of other operations; torn says that some poll
  // saw a job in ERROR before its exception was stored.
  datatype Agent = Agent(
    state: SessionState, error: bool, calls: map<CallId, Call>, queue: Queue,
    configures: nat, boots: nat, configureJobs: set<nat>, bootJobs: set<nat>, torn: bool)

  datatype Action =
    | Worker(e: Event)
    | ConfigureBegins(call: CallId, id: JobId)
    | ConfigureEnds(call: CallId)
    | BootRequested(call: CallId)
    | BootBegins(call: CallId)
    | BootSubmits(call: CallId, id: JobId)
    | BootPolls(call: CallId)

  function Created(maxJobs: nat): Agent {
    Agent(CREATED, false, map[], Empty(maxJobs), 0, 0, {}, {}, false)
  }

  /** The executor has finished with the job: its future is done. */
  ghost predicate FutureDone(q: Queue, job: nat) {
    Sized(q) && job < |q.ids| && job < Taken(q) && !Busy(q, job)
  }

  ghost predicate Allowed(s: Agent, a: Action) {
    Sized(s.queue) &&
    match a
    case Worker(e) => Possible(s.queue, e)
    case ConfigureBegins(call, id) => call !in s.calls && id !in s.queue.ids
    case ConfigureEnds(call) => call in s.calls && s.calls[call].Configuring? && FutureDone(s.queue, s.calls[call].job)
    case BootRequested(call) => call !in s.calls
    case BootBegins(call) => call in s.calls && s.calls[call].Requested?
    case BootSubmits(call, id) => call in s.calls && s.calls[call].Submitting? && id !in s.queue.ids
    case BootPolls(call) => call in s.calls && s.calls[call].Polling? && s.calls[call].job < |s.queue.ids|
  }

  /** A configure completes unless its callable raised. */
  function DoConfigureEnds(s: Agent, call: CallId, job: JobState): Agent {
    if job.ERROR? then s.(calls := s.calls - {call})
    else s.(state := CONFIGURED, calls := s.calls - {call}, configures := s.configures + 1)
  }

  function DoBootBegins(s: Agent, call: CallId): Agent {
    if !s.state.CONFIGURED? then s.(calls := s.calls - {call})
    else s.(state := BOOTING, calls := s.calls[call := Submitting])
  }

  /** The poll goes on while the job is queued or running, and then asks only whether an exception is stored. */
  function DoBootPolls(s: Agent, call: CallId, job: JobState, error: bool): Agent {
    if job.QUEUED? || job.RUNNING? then s
    else if error then s.(state := FAILED, error := true, calls := s.calls - {call})
    else s.(state := READY, calls := s.calls - {call}, torn := s.torn || job.ERROR?)
  }

  ghost function Do(s: Agent, a: Action): Agent
    requires Allowed(s, a)
  {
    match a
    case Worker(e) => s.(queue := Step(s.queue, e))
    case ConfigureBegins(call, id) =>
      s.(calls := s.calls[call := Configuring(|s.queue.ids|)], queue := Step(s.queue, Submit(id)),
         configureJobs := s.configureJobs + {|s.queue.ids|})
    case ConfigureEnds(call) => DoConfigureEnds(s, call, s.queue.states[s.calls[call].job])
    case BootRequested(call) => if s.state.CONFIGURED? then s.(calls := s.calls[call := Requested]) else s
    case BootBegins(call) => DoBootBegins(s, call)
    case BootSubmits(call, id) =>
      s.(calls := s.calls[call := Polling(|s.queue.ids|)], queue := Step(s.queue, Submit(id)),
         boots := s.boots + 1, bootJobs := s.bootJobs + {|s.queue.ids|})
    case BootPolls(call) =>
      DoBootPolls(s, call, s.queue.states[s.calls[call].job], s.queue.errors[s.calls[call].job])
  }

  ghost predicate CanPerform(s: Agent, run: seq<Action>)
    decreases |run|
  {
    run == [] || (Allowed(s, run[0]) && CanPerform(Do(s, run[0]), run[1..]))
  }

  ghost function Perform(s: Agent, run: seq<Action>): Agent
    requires CanPerform(s, run)
    decreases |run|
  {
    if run == [] then s else Perform(Do(s, run[0]), run[1..])
  }

  // ---- each configure pays for at most one boot job

  function Submitters(calls: map<CallId, Call>): set<CallId> {
    set call | call in calls && calls[call].Submitting?
  }

  /** Completed configures cover the boot jobs submitted, those about to be, and the one still allowed. */
  ghost predicate Paid(s: Agent) {
    s.boots + |Submitters(s.calls)| + (if s.state.CONFIGURED? then 1 else 0) <= s.configures
  }

  lemma SubmittersWithout(calls: map<CallId, Call>, call: CallId)
    requires call in calls && !calls[call].Submitting?
    ensures Submitters(calls - {call}) == Submitters(calls)
    ensures forall next: Call :: !next.Submitting? ==> Submitters(calls[call := next]) == Submitters(calls)
    ensures |Submitters(calls[call := Submitting])| == |Submitters(calls)| + 1
  {
    assert Submitters(calls[call := Submitting]) == Submitters(calls) + {call};
  }

  lemma StepKeepsPaid(s: Agent, a: Action)
    requires Paid(s) && Allowed(s, a)
    ensures Paid(Do(s, a))
  {
    if a.BootSubmits? {
      assert Submitters(Do(s, a).calls) == Submitters(s.calls) - {a.call};
    } else if a.ConfigureBegins? || a.BootRequested? {
      assert Submitters(Do(s, a).calls) == Submitters(s.calls);
    } else if !a.Worker? {
      SubmittersWithout(s.calls, a.call);
    }
  }

  /** Over any interleaving, two boots never get past the check for one configure. */
  lemma {:induction false} BootsNeverExceedConfigures(s: Agent, run: seq<Action>)
    requires Paid(s) && CanPerform(s, run)
    ensures Paid(Perform(s, run)) && Perform(s, run).boots <= Perform(s, run).configures
    decreases |run|
  {
    if run != [] {
      StepKeepsPaid(s, run[0]);
      BootsNeverExceedConfigures(Do(s, run[0]), run[1..]);
    }
  }

  // ---- what the state says about the jobs of configure and boot

  ghost predicate JobsKnown(s: Agent) {
    && (forall call :: call in s.calls && s.calls[call].Polling? ==> s.calls[call].job in s.bootJobs)
    && (forall call :: call in s.calls && s.calls[call].Configuring? ==> s.calls[call].job in s.configureJobs)
    && (forall job :: job in s.bootJobs ==> job < |s.queue.ids|)
    && (forall job :: job in s.configureJobs ==> job < |s.queue.ids|)
    && (s.state.CREATED? ==> forall call :: call in s.calls ==> s.calls[call].Configuring?)
  }

  ghost predicate SomeEnded(q: Queue, jobs: set<nat>, state: JobState) {
    exists job :: job in jobs && job < |q.states| && q.states[job] == state
  }

  ghost predicate SomeRaised(q: Queue, jobs: set<nat>) {
    exists job :: job in jobs && job < |q.states| && job < |q.errors| && q.states[job] == ERROR && q.errors[job]
  }

  ghost predicate Outcomes(s: Agent) {
    && (!s.state.CREATED? ==> SomeEnded(s.queue, s.configureJobs, DONE) || SomeEnded(s.queue, s.configureJobs, CANCELLED))
    && (s.state.READY? ==> SomeEnded(s.queue, s.bootJobs, DONE) || SomeEnded(s.queue, s.bootJobs, CANCELLED) || s.torn)
    && (s.state.FAILED? ==> SomeRaised(s.queue, s.bootJobs) && s.error)
  }

  ghost predicate AgentInv(s: Agent) {
    QueueInv(s.queue) && JobsKnown(s) && Outcomes(s)
  }

  /** The fate of a job that has met one stays, and more jobs can only add to the fates met. */
  lemma FatesStay(q: Queue, e: Event, jobs: set<nat>, more: set<nat>)
    requires QueueInv(q) && Possible(q, e) && jobs <= more
    ensures forall state: JobState :: state.Terminal() && SomeEnded(q, jobs, state) ==> SomeEnded(Step(q, e), more, state)
    ensures SomeRaised(q, jobs) ==> SomeRaised(Step(q, e), more)
  {
    StepIsMonotone(q, e);
    ErrorsStay(q, e);
    forall state: JobState | state.Terminal() && SomeEnded(q, jobs, state) ensures SomeEnded(Step(q, e), more, state) {
      var job :| job in jobs && job < |q.states| && q.states[job] == state;
      assert Step(q, e).states[job] == state;
    }
    if SomeRaised(q, jobs) {
      var job :| job in jobs && job < |q.states| && job < |q.errors| && q.states[job] == ERROR && q.errors[job];
      assert Step(q, e).states[job] == ERROR && Step(q, e).errors[job];
    }
  }

  lemma QueueStepKeepsInv(s: Agent, e: Event)
    requires AgentInv(s) && Possible(s.queue, e)
    ensures AgentInv(s.(queue := Step(s.queue, e)))
  {
    Executions.StepKeepsInv(s.queue, e);
    StepIsMonotone(s.queue, e);
    FatesStay(s.queue, e, s.bootJobs, s.bootJobs);
    FatesStay(s.queue, e, s.configureJobs, s.configureJobs);
  }

  lemma ErrorsStay(q: Queue, e: Event)
    requires QueueInv(q) && Possible(q, e)
    ensures |Step(q, e).errors| >= |q.errors| && forall j :: 0 <= j < |q.errors| && q.errors[j] ==> Step(q, e).errors[j]
  {
  }

  /** A boot ends READY exactly when the job it polled is done or cancelled, or is torn: ERROR with no exception stored. */
  lemma BootEndsReadyIff(s: Agent, call: CallId)
    requires AgentInv(s) && Allowed(s, BootPolls(call))
    ensures var job := s.calls[call].job;
            var end := Do(s, BootPolls(call));
            call !in end.calls && end.state.READY?
            <==> s.queue.states[job].DONE? || s.queue.states[job].CANCELLED? || s.queue.worker == Failing(job)
  {
  }

  /**
   * A poll ends the boot as FAILED, with the error recorded, exactly when the job it polled is in ERROR
   * with its exception stored; the boot goes on, with nothing changed, exactly while the job is queued
   * or running.
   */
  lemma BootEndsFailedIff(s: Agent, call: CallId)
    requires AgentInv(s) && Allowed(s, BootPolls(call))
    ensures var job, end := s.calls[call].job, Do(s, BootPolls(call));
            && (call !in end.calls && end.state.FAILED? <==> s.queue.states[job].ERROR? && s.queue.errors[job])
            && (s.queue.states[job].ERROR? && s.queue.errors[job] ==> end.error)
            && (call in end.calls <==> s.queue.states[job].QUEUED? || s.queue.states[job].RUNNING?)
            && (if call in end.calls then end == s
                else end.calls == s.calls - {call} && end.queue == s.queue && (end.state.READY? || end.state.FAILED?))
  {
    assert s.queue.errors[s.calls[call].job] ==> s.queue.states[s.calls[call].job].ERROR?;
  }

  /** A boot that starts moves a CONFIGURED session to BOOTING; in any other state the call ends and the session stays. */
  lemma BootBeginsIff(s: Agent, call: CallId)
    requires Allowed(s, BootBegins(call))
    ensures var end := Do(s, BootBegins(call));
            && end.queue == s.queue
            && (if s.state.CONFIGURED? then end.state.BOOTING? && end.calls == s.calls[call := Submitting]
                else end.state == s.state && end.calls == s.calls - {call})
  {
  }

  lemma PollKeepsInv(s: Agent, call: CallId)
    requires AgentInv(s) && Allowed(s, BootPolls(call))
    ensures AgentInv(Do(s, BootPolls(call)))
  {
    var job := s.calls[call].job;
    var s' := Do(s, BootPolls(call));
    assert job in s.bootJobs;
    assert s'.queue.states[job] == s.queue.states[job] && s'.queue.errors[job] == s.queue.errors[job];
  }

  lemma BootSubmitsKeepsInv(s: Agent, call: CallId, id: JobId)
    requires AgentInv(s) && Allowed(s, BootSubmits(call, id))
    ensures AgentInv(Do(s, BootSubmits(call, id)))
  {
    Executions.StepKeepsInv(s.queue, Submit(id));
    FatesStay(s.queue, Submit(id), s.bootJobs, s.bootJobs + {|s.queue.ids|});
    FatesStay(s.queue, Submit(id), s.configureJobs, s.configureJobs);
    BootSubmitsKeepsJobs(s, call, id);
  }

  lemma BootSubmitsKeepsJobs(s: Agent, call: CallId, id: JobId)
    requires JobsKnown(s) && Allowed(s, BootSubmits(call, id))
    ensures JobsKnown(Do(s, BootSubmits(call, id)))
  {
  }

  lemma ConfigureBeginsKeepsInv(s: Agent, call: CallId, id: JobId)
    requires AgentInv(s) && Allowed(s, ConfigureBegins(call, id))
    ensures AgentInv(Do(s, ConfigureBegins(call, id)))
  {
    Executions.StepKeepsInv(s.queue, Submit(id));
    FatesStay(s.queue, Submit(id), s.bootJobs, s.bootJobs);
    FatesStay(s.queue, Submit(id), s.configureJobs, s.configureJobs + {|s.queue.ids|});
  }

  /** A configure completes exactly if its job ended DONE, or was cancelled: then its callable never ran. */
  lemma ConfigureCompletesIff(s: Agent, call: CallId)
    requires AgentInv(s) && Allowed(s, ConfigureEnds(call))
    ensures var job := s.calls[call].job;
            && (Do(s, ConfigureEnds(call)).configures == s.configures + 1 <==> s.queue.states[job].DONE? || s.queue.states[job].CANCELLED?)
            && (s.queue.states[job].CANCELLED? ==> job !in s.queue.started)
            && Do(s, ConfigureEnds(call)).calls == s.calls - {call}
            && Do(s, ConfigureEnds(call)).state == (if s.queue.states[job].ERROR? then s.state else CONFIGURED)
  {
    var job := s.calls[call].job;
    assert s.queue.states[job].Terminal();
  }

  lemma ConfigureEndsKeepsInv(s: Agent, call: CallId)
    requires AgentInv(s) && Allowed(s, ConfigureEnds(call))
    ensures AgentInv(Do(s, ConfigureEnds(call)))
  {
    ConfigureCompletesIff(s, call);
    assert s.calls[call].job in s.configureJobs;
  }

  /** Only calls change, and CONFIGURED may become BOOTING. */
  ghost predicate Checks(s: Agent, s': Agent) {
    && s' == s.(calls := s'.calls, state := s'.state)
    && (s'.state == s.state || (s.state.CONFIGURED? && s'.state.BOOTING?))
  }

  lemma CheckKeepsJobs(s: Agent, a: Action)
    requires JobsKnown(s) && Allowed(s, a) && (a.BootRequested? || a.BootBegins?)
    ensures JobsKnown(Do(s, a)) && Checks(s, Do(s, a))
  {
  }

  lemma CheckKeepsOutcomes(s: Agent, s': Agent)
    requires Outcomes(s) && Checks(s, s')
    ensures Outcomes(s')
  {
  }

  lemma CheckKeepsInv(s: Agent, a: Action)
    requires AgentInv(s) && Allowed(s, a) && (a.BootRequested? || a.BootBegins?)
    ensures AgentInv(Do(s, a))
  {
    CheckKeepsJobs(s, a);
    CheckKeepsOutcomes(s, Do(s, a));
  }

  /** Every step keeps what the state of the session says about its jobs. */
  lemma AgentStepKeepsInv(s: Agent, a: Action)
    requires AgentInv(s) && Allowed(s, a)
    ensures AgentInv(Do(s, a))
  {
    match a
    case Worker(e) => QueueStepKeepsInv(s, e);
    case ConfigureBegins(call, id) => ConfigureBeginsKeepsInv(s, call, id);
    case ConfigureEnds(call) => ConfigureEndsKeepsInv(s, call);
    case BootRequested(call) => CheckKeepsInv(s, a);
    case BootBegins(call) => CheckKeepsInv(s, a);
    case BootSubmits(call, id) => BootSubmitsKeepsInv(s, call, id);
    case BootPolls(call) => PollKeepsInv(s, call);
  }

  lemma {:induction false} AgentRunKeepsInv(s: Agent, run: seq<Action>)
    requires AgentInv(s) && CanPerform(s, run)
    ensures AgentInv(Perform(s, run))
    decreases |run|
  {
    if run != [] {
      AgentStepKeepsInv(s, run[0]);
      AgentRunKeepsInv(Do(s, run[0]), run[1..]);
    }
  }

  /**
   * In any run a session that has left CREATED was configured by a job that ended done or was cancelled;
   * FAILED means that some boot job raised and the error is recorded; READY means that some boot
   * job ended done, or was cancelled, or that a poll fell between the two writes of a failing job.
   */
  lemma OutcomesMean(maxJobs: nat, run: seq<Action>)
    requires CanPerform(Created(maxJobs), run)
    ensures Outcomes(Perform(Created(maxJobs), run))
  {
    EmptyInv(maxJobs);
    AgentRunKeepsInv(Created(maxJobs), run);
  }

  /** No job is ever cancelled, and no poll falls between the two writes of a failing job. */
  ghost predicate Undisturbed(s: Agent, run: seq<Action>)
    requires CanPerform(s, run)
    decreases |run|
  {
    run == []
    || (&& !(run[0].Worker? && run[0].e.Cancel?)
        && (run[0].BootPolls? ==> s.queue.worker != Failing(s.calls[run[0].call].job))
        && Undisturbed(Do(s, run[0]), run[1..]))
  }

  lemma UndisturbedStep(s: Agent, a: Action)
    requires AgentInv(s) && Allowed(s, a) && !(a.Worker? && a.e.Cancel?)
    requires a.BootPolls? ==> s.queue.worker != Failing(s.calls[a.call].job)
    requires !s.torn && CANCELLED !in s.queue.states
    ensures !Do(s, a).torn && CANCELLED !in Do(s, a).queue.states
  {
  }

  lemma {:induction false} UndisturbedRun(s: Agent, run: seq<Action>)
    requires AgentInv(s) && CanPerform(s, run) && Undisturbed(s, run)
    requires !s.torn && CANCELLED !in s.queue.states
    ensures !Perform(s, run).torn && CANCELLED !in Perform(s, run).queue.states
    decreases |run|
  {
    if run != [] {
      AgentStepKeepsInv(s, run[0]);
      UndisturbedStep(s, run[0]);
      UndisturbedRun(Do(s, run[0]), run[1..]);
    }
  }

  /** Then READY is reached only after a boot job has ended DONE, and CONFIGURED only after a configure job has. */
  lemma ReadyMeansBooted(maxJobs: nat, run: seq<Action>)
    requires CanPerform(Created(maxJobs), run) && Undisturbed(Created(maxJobs), run)
    ensures var s := Perform(Created(maxJobs), run);
            && (!s.state.CREATED? ==> SomeEnded(s.queue, s.configureJobs, DONE))
            && (s.state.READY? ==> SomeEnded(s.queue, s.bootJobs, DONE))
  {
    EmptyInv(maxJobs);
    OutcomesMean(maxJobs, run);
    UndisturbedRun(Created(maxJobs), run);
  }

  // ---- a whole boot

  function AsWorker(events: seq<Event>): seq<Action> {
    if events == [] then [] else [Worker(events[0])] + AsWorker(events[1..])
  }

  lemma {:induction false} WorkerRuns(s: Agent, events: seq<Event>)
    requires QueueInv(s.queue) && Executions.CanRun(s.queue, events)
    ensures CanPerform(s, AsWorker(events)) && Perform(s, AsWorker(events)) == s.(queue := Executions.Run(s.queue, events))
    decreases |events|
  {
    if events != [] {
      Executions.StepKeepsInv(s.queue, events[0]);
      WorkerRuns(s.(queue := Step(s.queue, events[0])), events[1..]);
      PerformStarts(s, Worker(events[0]), AsWorker(events[1..]));
    }
  }

  lemma {:induction false} PerformComposes(s: Agent, first: seq<Action>, second: seq<Action>)
    requires CanPerform(s, first) && CanPerform(Perform(s, first), second)
    ensures CanPerform(s, first + second) && Perform(s, first + second) == Perform(Perform(s, first), second)
    decreases |first|
  {
    if first == [] {
      assert first + second == second;
    } else {
      PerformComposes(Do(s, first[0]), first[1..], second);
      assert (first + second)[1..] == first[1..] + second;
    }
  }

  lemma BootSubmitted(s: Agent, call: CallId, id: JobId)
    requires AgentInv(s) && s.state.CONFIGURED? && call !in s.calls && id !in s.queue.ids
    ensures var run := [BootRequested(call), BootBegins(call), BootSubmits(call, id)];
            && CanPerform(s, run)
            && var e := Perform(s, run);
               && e.state.BOOTING? && e.calls == s.calls[call := Polling(|s.queue.ids|)] && e.queue == Step(s.queue, Submit(id))
               && QueueInv(e.queue)
  {
    var s1 := Do(s, BootRequested(call));
    var s2 := Do(s1, BootBegins(call));
    assert s2.calls == s.calls[call := Submitting] && s2.queue == s.queue;
    var s3 := Do(s2, BootSubmits(call, id));
    assert s3.calls == s.calls[call := Polling(|s.queue.ids|)];
    Executions.StepKeepsInv(s.queue, Submit(id));
    PerformStarts(s2, BootSubmits(call, id), []);
    PerformStarts(s1, BootBegins(call), [BootSubmits(call, id)]);
    PerformStarts(s, BootRequested(call), [BootBegins(call), BootSubmits(call, id)]);
  }

  lemma BootPolled(s: Agent, call: CallId)
    requires Sized(s.queue) && call in s.calls && s.calls[call].Polling? && s.calls[call].job < |s.queue.ids|
    requires s.queue.states[s.calls[call].job].DONE? || s.queue.states[s.calls[call].job].ERROR?
    ensures CanPerform(s, [BootPolls(call)])
    ensures var e := Perform(s, [BootPolls(call)]);
            && e.queue == s.queue && e.calls == s.calls - {call}
            && (if s.queue.errors[s.calls[call].job] then e.state.FAILED? && e.error else e.state.READY?)
  {
    PerformStarts(s, BootPolls(call), []);
    assert [BootPolls(call)] + [] == [BootPolls(call)];
  }

  function WorkerEvents(raises: bool): seq<Event> {
    if raises then [Take, Raises, StoreError, Leave] else [Take, Returns, Leave]
  }

  lemma BootWorked(s: Agent, call: CallId, job: nat, raises: bool)
    requires QueueInv(s.queue) && s.queue.worker.Idle? && s.queue.pending == [job]
    requires job < |s.queue.states| && s.queue.states[job].QUEUED?
    requires call in s.calls && s.calls[call] == Polling(job)
    ensures var run := AsWorker(WorkerEvents(raises)) + [BootPolls(call)];
            && CanPerform(s, run)
            && var e := Perform(s, run);
               && e.calls == s.calls - {call} && e.queue.started == s.queue.started + [job]
               && (if raises then e.state.FAILED? && e.error else e.state.READY?)
  {
    var events := WorkerEvents(raises);
    TakenJobEnds(s.queue);
    WorkerRuns(s, events);
    Executions.RunKeepsInv(s.queue, events);
    BootPolled(Perform(s, AsWorker(events)), call);
    PerformComposes(s, AsWorker(events), [BootPolls(call)]);
  }

  /** A boot of a CONFIGURED session with an idle worker ends READY if the chain returns, and FAILED with the error if it raises. */
  lemma WholeBoot(s: Agent, call: CallId, id: JobId, raises: bool)
    requires AgentInv(s) && s.state.CONFIGURED? && call !in s.calls && id !in s.queue.ids
    requires s.queue.worker.Idle? && s.queue.pending == []
    ensures var events := if raises then [Take, Raises, StoreError, Leave] else [Take, Returns, Leave];
            var run := [BootRequested(call), BootBegins(call), BootSubmits(call, id)] + AsWorker(events) + [BootPolls(call)];
            && CanPerform(s, run)
            && var e := Perform(s, run);
               && e.calls == s.calls && e.queue.started == s.queue.started + [|s.queue.ids|]
               && (if raises then e.state.FAILED? && e.error else e.state.READY?)
  {
    var submits, works := [BootRequested(call), BootBegins(call), BootSubmits(call, id)], AsWorker(WorkerEvents(raises));
    BootSubmitted(s, call, id);
    BootWorked(Perform(s, submits), call, |s.queue.ids|, raises);
    PerformComposes(s, submits, works + [BootPolls(call)]);
    assert submits + (works + [BootPolls(call)]) == submits + works + [BootPolls(call)];
    assert s.calls[call := Polling(|s.queue.ids|)] - {call} == s.calls;
  }

  // ---- a configure that was cancelled and yet counts

  function CancelledRun(): seq<Action> {
    [ConfigureBegins(0, "j-1"), Worker(Cancel("j-1")), Worker(Take), ConfigureEnds(0)]
  }

  function CancelledState(n: nat): Agent {
    var waits: map<CallId, Call>, one: seq<JobId> := map[0 := Configuring(0)], ["j-1"];
    match n
    case 0 => Created(200)
    case 1 => Agent(CREATED, false, waits, Queue(one, [QUEUED], [false], 200, one, [0], None, Idle, []), 0, 0, {0}, {}, false)
    case 2 => Agent(CREATED, false, waits, Queue(one, [CANCELLED], [false], 200, one, [0], None, Idle, []), 0, 0, {0}, {}, false)
    case 3 => Agent(CREATED, false, waits, Queue(one, [CANCELLED], [false], 200, one, [], None, Idle, []), 0, 0, {0}, {}, false)
    case _ => Agent(CONFIGURED, false, map[], Queue(one, [CANCELLED], [false], 200, one, [], None, Idle, []), 1, 0, {0}, {}, false)
  }

  lemma CancelledStep(n: nat)
    requires n < 4
    ensures Allowed(CancelledState(n), CancelledRun()[n]) && Do(CancelledState(n), CancelledRun()[n]) == CancelledState(n + 1)
  {
  }

  lemma {:induction false} CancelledSuffix(n: nat)
    requires n <= 4
    ensures CanPerform(CancelledState(n), CancelledRun()[n..]) && Perform(CancelledState(n), CancelledRun()[n..]) == CancelledState(4)
    decreases 4 - n
  {
    if n < 4 {
      CancelledStep(n);
      CancelledSuffix(n + 1);
      PerformStarts(CancelledState(n), CancelledRun()[n], CancelledRun()[n + 1..]);
      assert CancelledRun()[n..] == [CancelledRun()[n]] + CancelledRun()[n + 1..];
    }
  }

  /** CONFIGURED although no callable was ever called. */
  ghost predicate ConfiguredByNothing(s: Agent) {
    s.state.CONFIGURED? && s.configures == 1 && s.queue.started == []
  }

  /** Cancelling matters: a session can read CONFIGURED although the only job ever submitted was cancelled before it ran. */
  lemma CancelledConfigureCounts()
    ensures exists run :: CanPerform(Created(200), run) && ConfiguredByNothing(Perform(Created(200), run))
  {
    CancelledSuffix(0);
    assert CancelledRun()[0..] == CancelledRun();
    assert ConfiguredByNothing(Perform(Created(200), CancelledRun()));
  }

  // ---- a boot that failed and yet reads READY

  lemma PerformStarts(s: Agent, a: Action, rest: seq<Action>)
    requires Allowed(s, a) && CanPerform(Do(s, a), rest)
    ensures CanPerform(s, [a] + rest) && Perform(s, [a] + rest) == Perform(Do(s, a), rest)
  {
    assert ([a] + rest)[1..] == rest;
  }

  /** The states of a run whose only boot job raises, seen by the poll between the two writes. */
  function TornState(n: nat): Agent {
    var one: seq<JobId>, two: seq<JobId> := ["j-1"], ["j-1", "j-2"];
    var quiet: map<CallId, Call>, first, polls := map[], map[0 := Configuring(0)], map[1 := Polling(1)];
    match n
    case 0 => Created(200)
    case 1 => Agent(CREATED, false, first, Queue(one, [QUEUED], [false], 200, one, [0], None, Idle, []), 0, 0, {0}, {}, false)
    case 2 => Agent(CREATED, false, first, Queue(one, [JobState.RUNNING], [false], 200, one, [], Some(0), Executing(0), [0]), 0, 0, {0}, {}, false)
    case 3 => Agent(CREATED, false, first, Queue(one, [DONE], [false], 200, one, [], Some(0), Leaving(0), [0]), 0, 0, {0}, {}, false)
    case 4 => Agent(CREATED, false, first, Queue(one, [DONE], [false], 200, one, [], None, Idle, [0]), 0, 0, {0}, {}, false)
    case 5 => Agent(CONFIGURED, false, quiet, Queue(one, [DONE], [false], 200, one, [], None, Idle, [0]), 1, 0, {0}, {}, false)
    case 6 => Agent(CONFIGURED, false, map[1 := Requested], Queue(one, [DONE], [false], 200, one, [], None, Idle, [0]), 1, 0, {0}, {}, false)
    case 7 => Agent(BOOTING, false, map[1 := Submitting], Queue(one, [DONE], [false], 200, one, [], None, Idle, [0]), 1, 0, {0}, {}, false)
    case 8 => Agent(BOOTING, false, polls, Queue(two, [DONE, QUEUED], [false, false], 200, two, [1], None, Idle, [0]), 1, 1, {0}, {1}, false)
    case 9 => Agent(BOOTING, false, polls, Queue(two, [DONE, JobState.RUNNING], [false, false], 200, two, [], Some(1), Executing(1), [0, 1]), 1, 1, {0}, {1}, false)
    case 10 => Agent(BOOTING, false, polls, Queue(two, [DONE, ERROR], [false, false], 200, two, [], Some(1), Failing(1), [0, 1]), 1, 1, {0}, {1}, false)
    case _ => Agent(SessionState.READY, false, quiet, Queue(two, [DONE, ERROR], [false, false], 200, two, [], Some(1), Failing(1), [0, 1]), 1, 1, {0}, {1}, true)
  }

  function TornRun(): seq<Action> {
    [ConfigureBegins(0, "j-1"), Worker(Take), Worker(Returns), Worker(Leave), ConfigureEnds(0), BootRequested(1), BootBegins(1),
     BootSubmits(1, "j-2"), Worker(Take), Worker(Raises), BootPolls(1)]
  }

  ghost predicate TornStepWorks(n: nat)
    requires n < 11
  {
    Allowed(TornState(n), TornRun()[n]) && Do(TornState(n), TornRun()[n]) == TornState(n + 1)
  }

  lemma TornStep(n: nat)
    requires n < 11
    ensures TornStepWorks(n)
  {
    if n >= 6 {
      TornBootStep(n);
    }
  }

  lemma TornBootStep(n: nat)
    requires 6 <= n < 11
    ensures TornStepWorks(n)
  {
  }

  lemma {:induction false} TornSuffix(n: nat)
    requires n <= 11
    ensures CanPerform(TornState(n), TornRun()[n..]) && Perform(TornState(n), TornRun()[n..]) == TornState(11)
    decreases 11 - n
  {
    if n < 11 {
      TornStep(n);
      TornSuffix(n + 1);
      PerformStarts(TornState(n), TornRun()[n], TornRun()[n + 1..]);
      assert TornRun()[n..] == [TornRun()[n]] + TornRun()[n + 1..];
    }
  }

  /** READY and no error recorded, although the only boot job raised. */
  ghost predicate HidesFailure(s: Agent) {
    s.state.READY? && !s.error && s.bootJobs == {1} && |s.queue.states| == 2 && s.queue.states[1].ERROR?
  }

  lemma TornWitness() returns (run: seq<Action>)
    ensures CanPerform(Created(200), run) && Perform(Created(200), run) == TornState(11)
  {
    TornSuffix(0);
    run := TornRun()[0..];
  }

  /** The two writes matter: a session can read READY with no error although its only boot job raised. */
  lemma TornPollHidesAFailure()
    ensures exists run :: CanPerform(Created(200), run) && HidesFailure(Perform(Created(200), run))
  {
    var run := TornWitness();
    assert HidesFailure(Perform(Created(200), run));
  }

  // ---- the session as a live object

  class AgentSession {
    const queue: ExecutionQueue
    var state: SessionState
    var error: bool
    var bootJob: Job?
    ghost var calls: map<CallId, Call>
    ghost var configures: nat
    ghost var boots: nat
    ghost var configureJobs: set<nat>
    ghost var bootJobs: set<nat>
    ghost var torn: bool

    ghost predicate Valid()
      reads this, queue
    {
      queue.Valid()
    }

    ghost function View(): Agent
      reads this, queue, queue.all
    {
      Agent(state, error, calls, queue.View(), configures, boots, configureJobs, bootJobs, torn)
    }

    constructor (queue: ExecutionQueue)
      requires queue.Valid() && queue.View() == Empty(queue.maxJobs)
      ensures Valid() && View() == Created(queue.maxJobs) && bootJob == null
    {
      this.queue := queue;
      state, error, bootJob := CREATED, false, null;
      calls, configures, boots, configureJobs, bootJobs, torn := map[], 0, 0, {}, {}, false;
    }

    /** configure() up to the await on its job. */
    method BeginConfigure(call: CallId, id: JobId) returns (job: Job)
      requires Valid() && Allowed(View(), ConfigureBegins(call, id))
      modifies this`calls, this`configureJobs, queue
      ensures Valid() && View() == Do(old(View()), ConfigureBegins(call, id))
      ensures queue.all == old(queue.all) + [job]
    {
      ghost var number := |queue.all|;
      job := queue.SubmitJob(id);
      calls := calls[call := Configuring(number)];
      configureJobs := configureJobs + {number};
    }

    /** configure() after the await: an exception of the job propagates, anything else completes. */
    method EndConfigure(call: CallId, job: Job) returns (raised: bool)
      requires Valid() && Allowed(View(), ConfigureEnds(call)) && queue.all[calls[call].job] == job
      modifies this
      ensures raised == job.state.ERROR?
      ensures Valid() && View() == Do(old(View()), ConfigureEnds(call))
    {
      calls := calls - {call};
      raised := job.state == JobState.ERROR;
      if raised {
        return;
      }
      state := CONFIGURED;
      configures := configures + 1;
    }

    /** The endpoint's check. */
    method RequestBoot(call: CallId) returns (accepted: bool)
      requires Valid() && Allowed(View(), BootRequested(call))
      modifies this`calls
      ensures accepted == state.CONFIGURED?
      ensures Valid() && View() == Do(old(View()), BootRequested(call))
    {
      accepted := state == CONFIGURED;
      if accepted {
        calls := calls[call := Requested];
      }
    }

    /** boot() checks again before it starts anything. */
    method BeginBoot(call: CallId) returns (raised: bool)
      requires Valid() && Allowed(View(), BootBegins(call))
      modifies this
      ensures raised == !old(state).CONFIGURED?
      ensures Valid() && View() == Do(old(View()), BootBegins(call))
    {
      raised := state != CONFIGURED;
      if raised {
        calls := calls - {call};
        return;
      }
      state := BOOTING;
      calls := calls[call := Submitting];
    }

    method SubmitBoot(call: CallId, id: JobId) returns (job: Job)
      requires Valid() && Allowed(View(), BootSubmits(call, id))
      modifies this, queue
      ensures bootJob == job && queue.all == old(queue.all) + [job]
      ensures Valid() && View() == Do(old(View()), BootSubmits(call, id))
    {
      ghost var before, number := View(), |queue.all|;
      job := queue.SubmitJob(id);
      assert queue.View() == Step(before.queue, Submit(id)) && number == |before.queue.ids|;
      NoteBoot(call, job, number);
    }

    method NoteBoot(call: CallId, job: Job, ghost number: nat)
      requires Valid()
      modifies this`bootJob, this`calls, this`boots, this`bootJobs
      ensures Valid() && bootJob == job
      ensures View() == old(View()).(calls := old(calls)[call := Polling(number)], boots := old(boots) + 1, bootJobs := old(bootJobs) + {number})
    {
      bootJob := job;
      calls := calls[call := Polling(number)];
      boots := boots + 1;
      bootJobs := bootJobs + {number};
    }

    /** One look at the job: wait on, or settle the session by whether an exception is stored. */
    method PollBoot(call: CallId, job: Job) returns (settled: bool)
      requires Valid() && Allowed(View(), BootPolls(call)) && queue.all[calls[call].job] == job
      modifies this
      ensures settled == !(job.state.QUEUED? || job.state.RUNNING?)
      ensures settled && job.error ==> state.FAILED? && error
      ensures settled && !job.error ==> state.READY? && error == old(error)
      ensures !settled ==> state == old(state) && error == old(error)
      ensures Valid() && View() == Do(old(View()), BootPolls(call))
    {
      settled := job.state != QUEUED && job.state != JobState.RUNNING;
      if !settled {
        return;
      }
      calls := calls - {call};
      if job.error {
        state := FAILED;
        error := true;
      } else {
        state := READY;
        torn := torn || job.state == JobState.ERROR;
      }
    }
  }
}
