/** The worker agent against the server: a volatile table of tasks, a durable journal and containers on
    one side, the run records on the other, with crashes and lost messages between any two steps. */
module AgentProtocol {
  import opened Wrappers
  import opened Runs
  import opened RunFacts
  import opened Dispatch
  import opened Invariant
  import opened History
  import opened RowMoves
  import opened Guarantees
  import opened ClaimBatch
  import opened WorkerRecords

  /** A journaled offer. */
  datatype Entry = Entry(startedAt: Time, timeout: nat)

  datatype Phase =
    | Fresh                        // start_run has registered it
    | Launching                    // journaled; pulling the image, creating the container
    | Recovering                   // after a restart, looking the container up by name
    | Supervising
    | Reporting(outcome: RunState) // retrying job.complete
    | Acked                        // job.complete was answered
    | Cleaned                      // the container was removed, or there was no handle to remove it with

  /** `attached` says that the RunTask has a handle on the run's container. */
  datatype Task = Task(phase: Phase, attached: bool, timeout: nat, deadline: Option<Time>)

  /** Containers are named after their run, so there is at most one for each. */
  datatype Agent = Agent(tasks: map<RunId, Task>, journal: map<RunId, Entry>, containers: set<RunId>)

  /** `unheard` are the runs that were claimed for this worker and of which the agent has no record. `unsettled` are
      those whose report was answered by something other than the server's completion, and not claimed again since. */
  datatype System = System(db: Db, agent: Agent, unheard: set<RunId>, unsettled: set<RunId>)

  datatype Event =
    | Server(step: Step)           // any step of the server, also on a request whose reply is lost
    | Offer(i: RunId)
    | Journaled(i: RunId, at: Time)
    | Created(i: RunId)
    | StartFailed(i: RunId)
    | CreateFailed(i: RunId, left: bool)
    | Found(i: RunId)
    | Gone(i: RunId)
    | LookupFailed(i: RunId)
    | Exited(i: RunId, outcome: RunState)
    | Reported(i: RunId, at: Time) // job.complete is handled by the server and answered, be it with a refusal
    | Unhandled(i: RunId)          // job.complete is answered by an error that comes from elsewhere
    | Cleanup(i: RunId, removed: bool)
    | Forget(i: RunId)
    | TaskDied(i: RunId)
    | Crash
    | Greet(capacity: int, capabilities: set<string>, at: Time)

  predicate In(a: Agent, i: RunId, phase: Phase) {
    i in a.tasks && a.tasks[i].phase == phase
  }

  predicate InReport(a: Agent, i: RunId) {
    i in a.tasks && a.tasks[i].phase.Reporting?
  }

  function With(a: Agent, i: RunId, phase: Phase): Agent
    requires i in a.tasks
  {
    a.(tasks := a.tasks[i := a.tasks[i].(phase := phase)])
  }

  /** The task has its container. */
  function Attached(a: Agent, i: RunId, phase: Phase): Agent
    requires i in a.tasks
  {
    a.(tasks := a.tasks[i := a.tasks[i].(phase := phase, attached := true)], containers := a.containers + {i})
  }

  /** `journal.add`: an existing entry is kept. */
  function Recorded(journal: map<RunId, Entry>, i: RunId, timeout: nat, at: Time): map<RunId, Entry> {
    if i in journal then journal else journal[i := Entry(at, timeout)]
  }

  function RecoveryOf(entry: Entry): Task {
    Task(Recovering, false, entry.timeout, Some(entry.startedAt + entry.timeout))
  }

  /** `_recover_journaled_runs`: a task for every journaled run that has none. */
  function Recovered(a: Agent): Agent {
    a.(tasks := map i | i in a.tasks.Keys + a.journal.Keys ::
         if i in a.tasks then a.tasks[i] else RecoveryOf(a.journal[i]))
  }

  function InFlightIds(a: Agent): set<RunId> {
    a.tasks.Keys + a.journal.Keys
  }

  /** What a step of the agent does to the agent alone; an event that cannot happen changes nothing. */
  function NextAgent(a: Agent, timeout: nat, e: Event): Agent {
    match e
    case Offer(i) => if i in a.tasks then a else a.(tasks := a.tasks[i := Task(Fresh, false, timeout, None)])
    case Journaled(i, at) =>
      if !In(a, i, Fresh) then a else
      var journal := Recorded(a.journal, i, a.tasks[i].timeout, at);
      a.(journal := journal,
         tasks := a.tasks[i := a.tasks[i].(phase := Launching,
                                           deadline := Some(journal[i].startedAt + a.tasks[i].timeout))])
    case Created(i) => if In(a, i, Launching) && i !in a.containers then Attached(a, i, Supervising) else a
    case StartFailed(i) => if In(a, i, Launching) && i !in a.containers then Attached(a, i, Reporting(FAILURE)) else a
    case CreateFailed(i, left) =>
      if In(a, i, Launching)
      then With(a, i, Reporting(FAILURE)).(containers := if left then a.containers + {i} else a.containers)
      else a
    case Found(i) => if In(a, i, Recovering) && i in a.containers then Attached(a, i, Supervising) else a
    case Gone(i) => if In(a, i, Recovering) && i !in a.containers then With(a, i, Reporting(FAILURE)) else a
    case LookupFailed(i) => if In(a, i, Recovering) then With(a, i, Reporting(FAILURE)) else a
    case Exited(i, outcome) =>
      if In(a, i, Supervising) && outcome in {SUCCESS, FAILURE, TERMINATED} then With(a, i, Reporting(outcome)) else a
    case Reported(i, _) => if InReport(a, i) then With(a, i, Acked) else a
    case Unhandled(i) => if InReport(a, i) then With(a, i, Acked) else a
    case Cleanup(i, removed) =>
      if !In(a, i, Acked) then a
      else With(a, i, Cleaned).(containers :=
        if a.tasks[i].attached && removed then a.containers - {i} else a.containers)
    case Forget(i) => if In(a, i, Cleaned) then a.(tasks := a.tasks - {i}, journal := a.journal - {i}) else a
    case TaskDied(i) => a.(tasks := a.tasks - {i})
    case Crash => a.(tasks := map[])
    case Greet(_, _, _) => Recovered(a)
    case Server(_) => a
  }

  /** The request the server handles in this event, if any. */
  function Request(w: WorkerId, a: Agent, e: Event): Option<Step> {
    match e
    case Server(step) => Some(step)
    case Reported(i, at) =>
      if InReport(a, i) then Some(Complete(w, i, a.tasks[i].phase.outcome, at)) else None
    case Greet(capacity, capabilities, at) => Some(SayHello(w, capacity, capabilities, InFlightIds(a), at))
    case _ => None
  }

  function NextDb(s: Settings, w: WorkerId, sys: System, e: Event): Db {
    var request := Request(w, sys.agent, e);
    if request.Some? then Next(s, sys.db, request.value) else sys.db
  }

  /** The task reported and was answered: it will not go back to its container. */
  predicate Over(a: Agent, i: RunId) {
    In(a, i, Acked) || In(a, i, Cleaned)
  }

  /** The run that this event's request claims for the worker. */
  function ClaimedIn(s: Settings, w: WorkerId, db: Db, e: Event): Option<RunId> {
    if e.Server? && e.step.ClaimNext? && e.step.w == w then ClaimOne(db, s, w, e.step.at).1 else None
  }

  /** A claim adds its run, an accepted offer takes it out; a task that dies before it is journaled leaves its
      run unheard. A hello settles the matter, but for a run whose earlier task is over and not yet forgotten. */
  function NextUnheard(a: Agent, unheard: set<RunId>, e: Event, claimed: Option<RunId>): set<RunId> {
    match e
    case Server(_) => if claimed.Some? then unheard + {claimed.value} else unheard
    case Offer(i) => if i in a.tasks then unheard else unheard - {i}
    case TaskDied(i) => if i in a.tasks && i !in a.journal then unheard + {i} else unheard
    case Crash => unheard + (a.tasks.Keys - a.journal.Keys)
    case Greet(_, _, _) => set i | i in unheard && Over(a, i)
    case _ => unheard
  }

  /** An error answer adds its run; a new claim or an accepted offer takes it out, and so does what brings the agent
      back to the journal entry. A hello settles the matter, but for a run whose task is not yet forgotten. */
  function NextUnsettled(a: Agent, unsettled: set<RunId>, e: Event, claimed: Option<RunId>): set<RunId> {
    match e
    case Server(_) => if claimed.Some? then unsettled - {claimed.value} else unsettled
    case Unhandled(i) => if InReport(a, i) then unsettled + {i} else unsettled
    case Offer(i) => if i in a.tasks then unsettled else unsettled - {i}
    case TaskDied(i) => if i in a.journal then unsettled - {i} else unsettled
    case Crash => unsettled - a.journal.Keys
    case Greet(_, _, _) => set i | i in unsettled && Over(a, i)
    case _ => unsettled
  }

  predicate Possible(sys: System, e: Event) {
    e.Offer? ==> e.i < |sys.db.runs|
  }

  function NextSystem(s: Settings, w: WorkerId, sys: System, e: Event): System {
    if !Possible(sys, e) then sys else
    var timeout := if e.Offer? then sys.db.runs[e.i].definition.timeoutSeconds else 0;
    var claimed := ClaimedIn(s, w, sys.db, e);
    System(NextDb(s, w, sys, e), NextAgent(sys.agent, timeout, e), NextUnheard(sys.agent, sys.unheard, e, claimed),
           NextUnsettled(sys.agent, sys.unsettled, e, claimed))
  }

  function ExecSystem(s: Settings, w: WorkerId, sys: System, events: seq<Event>): System {
    if events == [] then sys
    else NextSystem(s, w, ExecSystem(s, w, sys, events[..|events|-1]), events[|events|-1])
  }

  // ---------------------------------------------------------------- what every reachable system obeys

  /** Journal and task table speak of runs that exist, with their definition's timeout; every task that
      got as far as a container is journaled, and its deadline counts from the journaled start. */
  ghost predicate AgentOk(db: Db, a: Agent) {
    && (forall i :: i in a.journal ==> i < |db.runs| && a.journal[i].timeout == db.runs[i].definition.timeoutSeconds)
    && (forall i :: i in a.tasks ==> i < |db.runs| && TaskOk(a, i, db.runs[i].definition.timeoutSeconds))
  }

  ghost predicate TaskOk(a: Agent, i: RunId, timeout: nat)
    requires i in a.tasks
  {
    var t := a.tasks[i];
    && t.timeout == timeout
    && (t.phase == Fresh ==> t.deadline.None?)
    && (t.phase != Fresh ==> i in a.journal && t.deadline == Some(a.journal[i].startedAt + timeout))
    && (t.phase == Supervising ==> t.attached && i in a.containers)
    && (t.phase.Reporting? ==> t.phase.outcome in {SUCCESS, FAILURE, TERMINATED})
    && (t.attached ==> t.phase.Supervising? || t.phase.Reporting? || t.phase.Acked? || t.phase.Cleaned?)
  }

  /** The agent is at work on the run, or will be once it has read its journal. */
  predicate AtWork(a: Agent, i: RunId) {
    (i in a.tasks || i in a.journal) && !Over(a, i)
  }

  ghost predicate Known(a: Agent, unheard: set<RunId>, unsettled: set<RunId>, i: RunId, held: bool) {
    && (held && i !in unheard && i !in unsettled ==> AtWork(a, i))
    && (i in unsettled ==> !AtWork(a, i))
  }

  /** The server's view and the agent's differ only on runs whose claim the agent has no record of and on runs whose
      report was answered by something else than the completion; and the agent is done with the latter. */
  ghost predicate Agree(sys: System, w: WorkerId) {
    && (forall i {:trigger sys.db.runs[i]} :: 0 <= i < |sys.db.runs| ==>
          Known(sys.agent, sys.unheard, sys.unsettled, i, HeldBy(sys.db.runs[i], w)))
    && forall i :: i in sys.unsettled ==> i < |sys.db.runs|
  }

  ghost predicate SystemOk(sys: System, w: WorkerId) {
    Inv(sys.db) && AgentOk(sys.db, sys.agent) && Agree(sys, w)
  }

  /** One run as the agent sees it: its entry and its task carry the definition's timeout. */
  ghost predicate RunOk(a: Agent, i: RunId, timeout: nat) {
    && (i in a.journal ==> a.journal[i].timeout == timeout)
    && (i in a.tasks ==> TaskOk(a, i, timeout))
  }

  lemma RunKeeps(a: Agent, offered: nat, e: Event, i: RunId, timeout: nat)
    requires RunOk(a, i, timeout) && (e.Offer? && e.i == i ==> offered == timeout)
    ensures RunOk(NextAgent(a, offered, e), i, timeout)
  {
  }

  lemma AgentKeeps(db: Db, a: Agent, e: Event)
    requires AgentOk(db, a) && (e.Offer? ==> e.i < |db.runs|)
    ensures AgentOk(db, NextAgent(a, if e.Offer? then db.runs[e.i].definition.timeoutSeconds else 0, e))
  {
    var offered := if e.Offer? then db.runs[e.i].definition.timeoutSeconds else 0;
    var a' := NextAgent(a, offered, e);
    forall i | i in a'.tasks || i in a'.journal
      ensures i < |db.runs| && RunOk(a', i, db.runs[i].definition.timeoutSeconds)
    {
      assert i in a.tasks || i in a.journal || (e.Offer? && e.i == i);
      RunKeeps(a, offered, e, i, db.runs[i].definition.timeoutSeconds);
    }
  }

  /** A run comes to a worker by that worker's claim only. */
  lemma HoldsByClaim(s: Settings, db: Db, step: Step, w: WorkerId, i: RunId)
    requires Inv(db) && i < |Next(s, db, step).runs| && HeldBy(Next(s, db, step).runs[i], w)
    ensures i < |db.runs|
    ensures HeldBy(db.runs[i], w) || (step.ClaimNext? && step.w == w && ClaimOne(db, s, w, step.at).1 == Some(i))
  {
    if i < |db.runs| {
      var m := RowMove(s, db, step, i);
      MoveFollows(db.runs[i], m);
    } else {
      NewRowUnheld(s, db, step, i, w);
    }
  }

  lemma DefinitionsStay(s: Settings, db: Db, a: Agent, step: Step)
    requires Inv(db) && AgentOk(db, a)
    ensures AgentOk(Next(s, db, step), a)
  {
    forall i: RunId | i < |db.runs|
      ensures i < |Next(s, db, step).runs| && Next(s, db, step).runs[i].definition == db.runs[i].definition
    {
      var m := RowMove(s, db, step, i);
      MoveFollows(db.runs[i], m);
    }
  }

  /** A completion that the server handles leaves nothing with the worker, whatever its answer is. */
  lemma HandledMeansOver(s: Settings, db: Db, w: WorkerId, i: RunId, outcome: RunState, at: Time)
    requires Inv(db) && outcome in {SUCCESS, FAILURE, TERMINATED} && w in db.workers
    ensures i < |CompleteRun(db, s, w, i, outcome, at).0.runs| ==>
      !HeldBy(CompleteRun(db, s, w, i, outcome, at).0.runs[i], w)
  {
    if CompleteRun(db, s, w, i, outcome, at).1 == CompleteReply.Accepted { CompletedBy(s, db, w, i, outcome, at); }
  }

  lemma AgentKnows(a: Agent, unheard: set<RunId>, unsettled: set<RunId>, offered: nat, e: Event, claimed: Option<RunId>,
                   i: RunId, timeout: nat, before: bool, after: bool)
    requires RunOk(a, i, timeout) && Known(a, unheard, unsettled, i, before)
    requires after ==> before || claimed == Some(i)
    requires claimed.Some? ==> e.Server?
    requires after && e.Reported? && e.i == i ==> !InReport(a, i)
    requires after && e.Greet? ==> i in InFlightIds(a)
    ensures Known(NextAgent(a, offered, e), NextUnheard(a, unheard, e, claimed),
                  NextUnsettled(a, unsettled, e, claimed), i, after)
  {
  }

  /** What a hello makes of a run the worker holds: renewed when the worker named it, abandoned when not. */
  lemma HelloDrops(s: Settings, db: Db, step: Step, i: RunId)
    requires Inv(db) && step.SayHello? && step.w in db.workers && i < |db.runs| && HeldBy(db.runs[i], step.w)
    ensures i < |Next(s, db, step).runs|
    ensures var r' := Next(s, db, step).runs[i];
      if i in step.known then r' == db.runs[i].(lease := Some(step.at + s.leaseSeconds)) else !HeldBy(r', step.w)
  {
    var m := HelloMove(s, db, step, i);
  }

  lemma HelloAbandons(s: Settings, db: Db, step: Step, i: RunId)
    requires Inv(db) && step.SayHello? && step.w in db.workers && i < |db.runs| && HeldBy(db.runs[i], step.w)
    requires i !in step.known
    ensures i < |Next(s, db, step).runs| && MovesBy(db.runs[i], Next(s, db, step).runs[i], Abandon(step.at))
  {
    var m := HelloMove(s, db, step, i);
  }

  lemma HeldAfterReport(s: Settings, w: WorkerId, db: Db, a: Agent, e: Event, i: RunId)
    requires Inv(db) && AgentOk(db, a) && w in db.workers && e.Reported? && Request(w, a, e).Some?
    requires i < |Next(s, db, Request(w, a, e).value).runs| && HeldBy(Next(s, db, Request(w, a, e).value).runs[i], w)
    ensures e.i != i
  {
    HandledMeansOver(s, db, w, e.i, Request(w, a, e).value.outcome, e.at);
  }

  lemma HeldAfterGreeting(s: Settings, w: WorkerId, db: Db, step: Step, i: RunId)
    requires Inv(db) && step.SayHello? && step.w == w && w in db.workers && i < |db.runs| && HeldBy(db.runs[i], w)
    requires i < |Next(s, db, step).runs| && HeldBy(Next(s, db, step).runs[i], w)
    ensures i in step.known && Next(s, db, step).runs[i].lease == Some(step.at + s.leaseSeconds)
  {
    HelloDrops(s, db, step, i);
  }

  lemma SystemKeeps(s: Settings, w: WorkerId, sys: System, e: Event)
    requires SystemOk(sys, w) && w in sys.db.workers
    ensures SystemOk(NextSystem(s, w, sys, e), w) && w in NextSystem(s, w, sys, e).db.workers
  {
    if Possible(sys, e) {
      var request := Request(w, sys.agent, e);
      AgentKeeps(sys.db, sys.agent, e);
      if request.Some? {
        StepKeeps(s, sys.db, request.value);
        DefinitionsStay(s, sys.db, NextAgent(sys.agent, 0, e), request.value);
        RecordStep(s, sys.db, request.value, w);
      }
      AgreementKeeps(s, w, sys, e);
    }
  }

  /** How a run can come to be with the worker after an event. */
  ghost predicate HeldSince(s: Settings, w: WorkerId, sys: System, e: Event, i: RunId) {
    && i < |sys.db.runs|
    && (HeldBy(sys.db.runs[i], w) || ClaimedIn(s, w, sys.db, e) == Some(i))
    && (e.Reported? && e.i == i ==> !InReport(sys.agent, i))
    && (e.Greet? ==> i in InFlightIds(sys.agent))
  }

  lemma HeldAfter(s: Settings, w: WorkerId, sys: System, e: Event, i: RunId)
    requires Inv(sys.db) && AgentOk(sys.db, sys.agent) && w in sys.db.workers
    requires var d := NextDb(s, w, sys, e); i < |d.runs| && HeldBy(d.runs[i], w)
    ensures HeldSince(s, w, sys, e, i)
  {
    var request := Request(w, sys.agent, e);
    if request.Some? {
      HoldsByClaim(s, sys.db, request.value, w, i);
      if e.Reported? { HeldAfterReport(s, w, sys.db, sys.agent, e, i); }
      if e.Greet? { HeldAfterGreeting(s, w, sys.db, request.value, i); }
    }
  }

  lemma KnownKeeps(s: Settings, w: WorkerId, sys: System, e: Event, i: RunId, held: bool, timeout: nat)
    requires RunOk(sys.agent, i, timeout) && i < |sys.db.runs|
    requires Known(sys.agent, sys.unheard, sys.unsettled, i, HeldBy(sys.db.runs[i], w))
    requires Possible(sys, e) && (held ==> HeldSince(s, w, sys, e, i))
    ensures var next := NextSystem(s, w, sys, e); Known(next.agent, next.unheard, next.unsettled, i, held)
  {
    var offered := if e.Offer? then sys.db.runs[e.i].definition.timeoutSeconds else 0;
    AgentKnows(sys.agent, sys.unheard, sys.unsettled, offered, e,
               ClaimedIn(s, w, sys.db, e), i, timeout, HeldBy(sys.db.runs[i], w), held);
  }

  lemma UnsettledExist(s: Settings, w: WorkerId, sys: System, e: Event)
    requires AgentOk(sys.db, sys.agent) && forall i :: i in sys.unsettled ==> i < |sys.db.runs|
    ensures forall i :: i in NextSystem(s, w, sys, e).unsettled ==> i < |sys.db.runs|
  {
  }

  lemma AgreementKeeps(s: Settings, w: WorkerId, sys: System, e: Event)
    requires SystemOk(sys, w) && Possible(sys, e) && w in sys.db.workers
    ensures Agree(NextSystem(s, w, sys, e), w)
  {
    var next := NextSystem(s, w, sys, e);
    UnsettledExist(s, w, sys, e);
    RowsStayInSystem(s, w, sys, e);
    forall i: RunId | i < |next.db.runs|
      ensures Known(next.agent, next.unheard, next.unsettled, i, HeldBy(next.db.runs[i], w))
    {
      if HeldBy(next.db.runs[i], w) { HeldAfter(s, w, sys, e, i); }
      if i < |sys.db.runs| {
        KnownKeeps(s, w, sys, e, i, HeldBy(next.db.runs[i], w), sys.db.runs[i].definition.timeoutSeconds);
      }
    }
  }

  lemma RowsStayInSystem(s: Settings, w: WorkerId, sys: System, e: Event)
    requires Inv(sys.db)
    ensures |NextSystem(s, w, sys, e).db.runs| >= |sys.db.runs|
  {
    var request := Request(w, sys.agent, e);
    if request.Some? && |sys.db.runs| > 0 { var m := RowMove(s, sys.db, request.value, |sys.db.runs| - 1); }
  }

  // ---------------------------------------------------------------- whole histories of the system

  function Boot(workers: map<WorkerId, Worker>): System {
    System(Start(workers), Agent(map[], map[], {}), {}, {})
  }

  lemma {:induction false} SystemStays(s: Settings, w: WorkerId, sys: System, events: seq<Event>)
    requires SystemOk(sys, w) && w in sys.db.workers
    ensures SystemOk(ExecSystem(s, w, sys, events), w) && w in ExecSystem(s, w, sys, events).db.workers
  {
    if events != [] {
      SystemStays(s, w, sys, events[..|events|-1]);
      SystemKeeps(s, w, ExecSystem(s, w, sys, events[..|events|-1]), events[|events|-1]);
    }
  }

  /** After any events whatever, crashes and lost messages included, the agent's records are sound and the
      server's differ from them only on runs whose claim the agent has not heard of, or whose report was answered by
      something else than the server's completion. */
  lemma AlwaysOk(s: Settings, w: WorkerId, workers: map<WorkerId, Worker>, events: seq<Event>)
    requires w in workers
    ensures SystemOk(ExecSystem(s, w, Boot(workers), events), w)
    ensures w in ExecSystem(s, w, Boot(workers), events).db.workers
  {
    AlwaysInv(s, workers, []);
    SystemStays(s, w, Boot(workers), events);
  }

  // ---------------------------------------------------------------- what a hello restores

  /** The hello the agent sends names every run it knows of; in the system it is the event Greet. */
  ghost predicate HelloOf(a: Agent, w: WorkerId, step: Step) {
    step.SayHello? && step.w == w && step.known == InFlightIds(a)
  }

  lemma GreetIsHello(s: Settings, w: WorkerId, sys: System, step: Step)
    requires HelloOf(sys.agent, w, step)
    ensures NextSystem(s, w, sys, Greet(step.capacity, step.capabilities, step.at)).db == Next(s, sys.db, step)
    ensures NextSystem(s, w, sys, Greet(step.capacity, step.capabilities, step.at)).agent == Recovered(sys.agent)
  {
  }

  /** A hello that is answered brings both sides into agreement, run by run: what the worker held and the
      agent knows of keeps running on a renewed lease; what the agent does not know of leaves the worker,
      by the move that HelloAbandons names. */
  lemma HelloReconciles(s: Settings, w: WorkerId, sys: System, step: Step, i: RunId)
    requires SystemOk(sys, w) && w in sys.db.workers && HelloOf(sys.agent, w, step)
    requires i < |sys.db.runs| && HeldBy(sys.db.runs[i], w)
    ensures i < |Next(s, sys.db, step).runs|
    ensures var r' := Next(s, sys.db, step).runs[i];
      if i in sys.agent.tasks || i in sys.agent.journal
      then r' == sys.db.runs[i].(lease := Some(step.at + s.leaseSeconds)) else !HeldBy(r', w)
  {
    HelloDrops(s, sys.db, step, i);
  }

  /** After it, every run the server records with this worker has a task in the agent and a fresh lease; the
      task is still at work, unless it is over and not yet forgotten: because the run was claimed again meanwhile, or
      because the answer to its report did not come from the server's completion. */
  lemma HelloAgrees(s: Settings, w: WorkerId, sys: System, step: Step, i: RunId)
    requires SystemOk(sys, w) && w in sys.db.workers && HelloOf(sys.agent, w, step)
    requires i < |Next(s, sys.db, step).runs| && HeldBy(Next(s, sys.db, step).runs[i], w)
    ensures Next(s, sys.db, step).runs[i].lease == Some(step.at + s.leaseSeconds)
    ensures i in Recovered(sys.agent).tasks
    ensures Over(Recovered(sys.agent), i) ==> (i in sys.unheard || i in sys.unsettled) && Over(sys.agent, i)
  {
    HoldsByClaim(s, sys.db, step, w, i);
    HeldAfterGreeting(s, w, sys.db, step, i);
    assert Known(sys.agent, sys.unheard, sys.unsettled, i, HeldBy(sys.db.runs[i], w));
  }

  // ---------------------------------------------------------------- answers that settle nothing

  /** Job.complete was answered: by the server's completion, or by an error from elsewhere, such as the gateway's rate
      limit or timeout, or an internal error. The agent takes the one for the other. */
  predicate Answers(e: Event, i: RunId) {
    (e.Reported? && e.i == i) || e == Unhandled(i)
  }

  /** After an answer the agent is done with the run. The worker still has it if and only if it had it before and the
      completion was not handled. */
  lemma AnswerSettles(s: Settings, w: WorkerId, sys: System, e: Event, i: RunId)
    requires SystemOk(sys, w) && w in sys.db.workers && InReport(sys.agent, i) && Answers(e, i)
    ensures var next := NextSystem(s, w, sys, e);
      && In(next.agent, i, Acked) && i < |sys.db.runs| && i < |next.db.runs|
      && (HeldBy(next.db.runs[i], w) <==> HeldBy(sys.db.runs[i], w) && e == Unhandled(i))
      && (e == Unhandled(i) ==> next.db == sys.db && i in next.unsettled)
  {
    RowsStayInSystem(s, w, sys, e);
    if HeldBy(NextSystem(s, w, sys, e).db.runs[i], w) { HeldAfter(s, w, sys, e, i); }
  }

  /** The agent then forgets a run that the server has with its worker. */
  lemma ErrorAnswerLosesRun(s: Settings, w: WorkerId, sys: System, i: RunId, removed: bool)
    requires InReport(sys.agent, i)
    ensures var answered := NextSystem(s, w, sys, Unhandled(i));
      var end := NextSystem(s, w, NextSystem(s, w, answered, Cleanup(i, removed)), Forget(i));
      end.db == sys.db && i !in end.agent.tasks && i !in end.agent.journal
  {
  }

  /** And its next hello has the run abandoned, whatever outcome it had: with attempts left it is executed again. */
  lemma ForgottenRunIsRetried(s: Settings, w: WorkerId, sys: System, step: Step, i: RunId)
    requires SystemOk(sys, w) && w in sys.db.workers && HelloOf(sys.agent, w, step)
    requires i < |sys.db.runs| && HeldBy(sys.db.runs[i], w) && i !in sys.agent.tasks && i !in sys.agent.journal
    ensures i < |Next(s, sys.db, step).runs|
    ensures var r, r' := sys.db.runs[i], Next(s, sys.db, step).runs[i];
      && r' == Abandoned(r, step.at)
      && (RetriesLeft(r) ==> r'.state == PENDING && r'.attempt == r.attempt + 1)
      && (!RetriesLeft(r) ==> r'.state == ABANDONED)
  {
    HelloAbandons(s, sys.db, step, i);
  }

  /** At event n, the run's report got an answer that settled nothing. */
  ghost predicate UnhandledAt(s: Settings, w: WorkerId, sys: System, events: seq<Event>, n: nat, i: RunId) {
    n < |events| && events[n] == Unhandled(i) && InReport(ExecSystem(s, w, sys, events[..n]).agent, i)
  }

  /** The bookkeeping says what happened: an unsettled run's report was so answered. */
  lemma {:induction false} UnsettledWasUnhandled(s: Settings, w: WorkerId, workers: map<WorkerId, Worker>,
                                                 events: seq<Event>, i: RunId)
    requires i in ExecSystem(s, w, Boot(workers), events).unsettled
    ensures exists n: nat :: UnhandledAt(s, w, Boot(workers), events, n, i)
  {
    if events != [] {
      var sys, front, last := Boot(workers), events[..|events|-1], events[|events|-1];
      if i in ExecSystem(s, w, sys, front).unsettled {
        UnsettledWasUnhandled(s, w, workers, front, i);
        var n: nat :| UnhandledAt(s, w, sys, front, n, i);
        UnhandledEarlier(s, w, sys, events, n, i);
      } else {
        NewlyUnsettled(s, w, ExecSystem(s, w, sys, front), last, i);
        assert UnhandledAt(s, w, sys, events, |front|, i);
      }
    }
  }

  lemma UnhandledEarlier(s: Settings, w: WorkerId, sys: System, events: seq<Event>, n: nat, i: RunId)
    requires events != [] && UnhandledAt(s, w, sys, events[..|events|-1], n, i)
    ensures UnhandledAt(s, w, sys, events, n, i)
  {
    assert events[..|events|-1][..n] == events[..n];
  }

  lemma NewlyUnsettled(s: Settings, w: WorkerId, sys: System, e: Event, i: RunId)
    requires i !in sys.unsettled && i in NextSystem(s, w, sys, e).unsettled
    ensures e == Unhandled(i) && InReport(sys.agent, i)
  {
  }

  // ---------------------------------------------------------------- deadlines

  lemma {:induction false} EntryStays(s: Settings, w: WorkerId, sys: System, events: seq<Event>, i: RunId)
    requires i in sys.agent.journal && Forget(i) !in events
    ensures var a := ExecSystem(s, w, sys, events).agent;
      i in a.journal && a.journal[i] == sys.agent.journal[i]
  {
    if events != [] {
      EntryStays(s, w, sys, events[..|events|-1], i);
      assert events[|events|-1] != Forget(i);
    }
  }

  /** A run's deadline is fixed when it is journaled: no crash, restart, recovery or new offer moves it, as
      long as the entry is there. */
  lemma DeadlineNeverMoves(s: Settings, w: WorkerId, sys: System, events: seq<Event>, i: RunId)
    requires SystemOk(sys, w) && w in sys.db.workers && i in sys.agent.journal && Forget(i) !in events
    ensures var a := ExecSystem(s, w, sys, events).agent;
      && i < |sys.db.runs|
      && (i in a.tasks && a.tasks[i].phase != Fresh ==>
            a.tasks[i].deadline == Some(sys.agent.journal[i].startedAt + sys.db.runs[i].definition.timeoutSeconds))
  {
    EntryStays(s, w, sys, events, i);
    AgentStaysOk(s, w, sys, events);
    DeadlineFromEntry(sys.db, sys.agent, ExecSystem(s, w, sys, events).db, ExecSystem(s, w, sys, events).agent, i);
  }

  lemma AgentStaysOk(s: Settings, w: WorkerId, sys: System, events: seq<Event>)
    requires SystemOk(sys, w) && w in sys.db.workers
    ensures AgentOk(ExecSystem(s, w, sys, events).db, ExecSystem(s, w, sys, events).agent)
  {
    SystemStays(s, w, sys, events);
  }

  lemma DeadlineFromEntry(db: Db, a: Agent, db': Db, a': Agent, i: RunId)
    requires AgentOk(db, a) && AgentOk(db', a') && i in a.journal && i in a'.journal && a'.journal[i] == a.journal[i]
    ensures i < |db.runs|
    ensures i in a'.tasks && a'.tasks[i].phase != Fresh ==>
      a'.tasks[i].deadline == Some(a.journal[i].startedAt + db.runs[i].definition.timeoutSeconds)
  {
  }

  /** In particular a retry that comes back to the same worker while the entry is there inherits the first
      attempt's start, and may be over its time before its container is created. */
  lemma RetryInheritsDeadline(s: Settings, w: WorkerId, sys: System, i: RunId, at: Time)
    requires SystemOk(sys, w) && i in sys.agent.journal && i !in sys.agent.tasks
    ensures var a := NextSystem(s, w, NextSystem(s, w, sys, Offer(i)), Journaled(i, at)).agent;
      i in a.tasks && a.tasks[i].deadline == Some(sys.agent.journal[i].startedAt + sys.agent.journal[i].timeout)
  {
  }

  // ---------------------------------------------------------------- containers

  /** The run's container, if there is one, is journaled, and its task is not on its way out without it. */
  ghost predicate TidyRun(a: Agent, i: RunId) {
    i in a.containers ==>
      && i in a.journal
      && (i in a.tasks ==>
            && !a.tasks[i].phase.Cleaned?
            && (a.tasks[i].phase.Reporting? || a.tasks[i].phase.Acked? ==> a.tasks[i].attached))
  }

  ghost predicate Tidy(a: Agent) {
    forall i {:trigger TidyRun(a, i)} :: i in a.containers ==> TidyRun(a, i)
  }

  /** The runtime does not fail in the one way that counts: with the run's container in place and its RunTask
      without a handle on it, or unable to remove it. */
  ghost predicate Clean(a: Agent, e: Event) {
    && (e.CreateFailed? && In(a, e.i, Launching) ==> !e.left && e.i !in a.containers)
    && (e.LookupFailed? && In(a, e.i, Recovering) ==> e.i !in a.containers)
    && (e.Cleanup? && In(a, e.i, Acked) && e.i in a.containers ==> e.removed)
  }

  lemma TidyRunStays(a: Agent, offered: nat, e: Event, i: RunId, timeout: nat)
    requires RunOk(a, i, timeout) && TidyRun(a, i) && Clean(a, e)
    ensures TidyRun(NextAgent(a, offered, e), i)
  {
  }

  lemma UncleanIsUntidy(a: Agent, offered: nat, e: Event, timeout: nat)
    requires !Clean(a, e) && RunOk(a, e.i, timeout) && TidyRun(a, e.i)
    ensures e.i in NextAgent(a, offered, e).containers && !TidyRun(NextAgent(a, offered, e), e.i)
  {
  }

  /** One event leaves the containers tidy if and only if the runtime does not fail in that way. */
  lemma TidyStays(db: Db, a: Agent, offered: nat, e: Event)
    requires AgentOk(db, a) && Tidy(a)
    ensures Tidy(NextAgent(a, offered, e)) <==> Clean(a, e)
  {
    var a' := NextAgent(a, offered, e);
    if Clean(a, e) {
      forall i | i in a'.containers ensures TidyRun(a', i) {
        assert TidyRun(a, i);
        TidyRunStays(a, offered, e, i, if i < |db.runs| then db.runs[i].definition.timeoutSeconds else 0);
      }
    } else {
      assert TidyRun(a, e.i);
      UncleanIsUntidy(a, offered, e, if e.i < |db.runs| then db.runs[e.i].definition.timeoutSeconds else 0);
    }
  }

  lemma StepTidy(s: Settings, w: WorkerId, sys: System, e: Event)
    requires AgentOk(sys.db, sys.agent) && Tidy(sys.agent)
    ensures Tidy(NextSystem(s, w, sys, e).agent) <==> Clean(sys.agent, e)
  {
    if Possible(sys, e) {
      TidyStays(sys.db, sys.agent, if e.Offer? then sys.db.runs[e.i].definition.timeoutSeconds else 0, e);
    }
  }

  ghost predicate AllClean(s: Settings, w: WorkerId, sys: System, events: seq<Event>) {
    forall k :: 0 <= k < |events| ==> Clean(ExecSystem(s, w, sys, events[..k]).agent, events[k])
  }

  lemma {:induction false} TidyFrom(s: Settings, w: WorkerId, sys: System, events: seq<Event>)
    requires SystemOk(sys, w) && w in sys.db.workers && Tidy(sys.agent) && AllClean(s, w, sys, events)
    ensures Tidy(ExecSystem(s, w, sys, events).agent)
  {
    if events != [] {
      var prefix := events[..|events|-1];
      assert forall k :: 0 <= k < |prefix| ==> events[..k] == prefix[..k];
      TidyFrom(s, w, sys, prefix);
      AgentStaysOk(s, w, sys, prefix);
      StepTidy(s, w, ExecSystem(s, w, sys, prefix), events[|events|-1]);
    }
  }

  /** The containers are tidy in every state that a history goes through. */
  ghost predicate AlwaysTidy(s: Settings, w: WorkerId, sys: System, events: seq<Event>) {
    forall n {:trigger events[..n]} :: 0 <= n <= |events| ==> Tidy(ExecSystem(s, w, sys, events[..n]).agent)
  }

  /** Whatever crashes and restarts happen, and between whichever steps: in every state of a history each existing
      container has a journal entry and a way to be removed, if and only if no event of it fails in that way. */
  lemma ContainersAreJournaled(s: Settings, w: WorkerId, workers: map<WorkerId, Worker>, events: seq<Event>)
    requires w in workers
    ensures AlwaysTidy(s, w, Boot(workers), events) <==> AllClean(s, w, Boot(workers), events)
  {
    var sys := Boot(workers);
    AlwaysOk(s, w, workers, []);
    if AllClean(s, w, sys, events) {
      forall n {:trigger events[..n]} | 0 <= n <= |events| ensures Tidy(ExecSystem(s, w, sys, events[..n]).agent) {
        assert forall k :: 0 <= k < n ==> events[..n][..k] == events[..k];
        TidyFrom(s, w, sys, events[..n]);
      }
    }
    if AlwaysTidy(s, w, sys, events) {
      forall k: nat | k < |events| ensures Clean(ExecSystem(s, w, sys, events[..k]).agent, events[k]) {
        assert events[..k+1] == events[..k] + [events[k]];
        ExecSnoc(s, w, sys, events[..k], events[k]);
        AgentStaysOk(s, w, sys, events[..k]);
        StepTidy(s, w, ExecSystem(s, w, sys, events[..k]), events[k]);
      }
    }
  }

  ghost predicate Orphan(a: Agent, i: RunId) {
    i in a.containers && i !in a.journal && i !in a.tasks
  }

  /** When an answered task is cleaned up and forgotten, its container is orphaned exactly when there is one
      and its RunTask had no handle on it or could not remove it. */
  lemma CleanupOrphans(a: Agent, i: RunId, removed: bool)
    requires In(a, i, Acked)
    ensures Orphan(NextAgent(NextAgent(a, 0, Cleanup(i, removed)), 0, Forget(i)), i) <==>
      i in a.containers && !(a.tasks[i].attached && removed)
  {
  }

  lemma ExecSnoc(s: Settings, w: WorkerId, sys: System, events: seq<Event>, e: Event)
    ensures ExecSystem(s, w, sys, events + [e]) == NextSystem(s, w, ExecSystem(s, w, sys, events), e)
  {
  }

  /** A task that gives up on an existing container orphans it, whatever the server answers: this is what a
      failed lookup after a restart does. */
  lemma GivingUpOrphans(s: Settings, w: WorkerId, sys: System, i: RunId, at: Time, removed: bool)
    requires InReport(sys.agent, i) && !sys.agent.tasks[i].attached
    requires i in sys.agent.containers
    ensures Orphan(ExecSystem(s, w, sys, [Reported(i, at), Cleanup(i, removed), Forget(i)]).agent, i)
  {
    ExecSnoc(s, w, sys, [], Reported(i, at));
    ExecSnoc(s, w, sys, [Reported(i, at)], Cleanup(i, removed));
    ExecSnoc(s, w, sys, [Reported(i, at), Cleanup(i, removed)], Forget(i));
    assert [] + [Reported(i, at)] == [Reported(i, at)];
    assert [Reported(i, at)] + [Cleanup(i, removed)] == [Reported(i, at), Cleanup(i, removed)];
    assert [Reported(i, at), Cleanup(i, removed)] + [Forget(i)] == [Reported(i, at), Cleanup(i, removed), Forget(i)];
  }

  ghost predicate AllJournaled(a: Agent) {
    a.containers <= a.journal.Keys
  }

  /** How the run of an unclean event is brought to its end, with no further failure. */
  function Ending(e: Event): seq<Event>
    requires e.CreateFailed? || e.LookupFailed? || e.Cleanup?
  {
    if e.Cleanup? then [Forget(e.i)] else [Reported(e.i, 0), Cleanup(e.i, true), Forget(e.i)]
  }

  lemma EndingIsClean(s: Settings, w: WorkerId, sys: System, e: Event)
    requires e.CreateFailed? || e.LookupFailed? || e.Cleanup?
    ensures AllClean(s, w, sys, Ending(e))
  {
    assert forall k :: 0 <= k < |Ending(e)| ==> !Ending(e)[k].CreateFailed? && !Ending(e)[k].LookupFailed?;
  }

  /** Events other than offers change the agent as they would without a server. */
  lemma AgentOnly(s: Settings, w: WorkerId, sys: System, e: Event)
    requires !e.Offer?
    ensures NextSystem(s, w, sys, e).agent == NextAgent(sys.agent, 0, e)
  {
  }

  /** The run's task has given up on its container, or has just failed to remove it. */
  ghost predicate Lost(a: Agent, e: Event)
    requires e.CreateFailed? || e.LookupFailed? || e.Cleanup?
  {
    && e.i in a.tasks && e.i in a.containers
    && if e.Cleanup? then a.tasks[e.i].phase.Cleaned? else a.tasks[e.i].phase.Reporting? && !a.tasks[e.i].attached
  }

  lemma UncleanIsLost(a: Agent, e: Event, timeout: nat)
    requires !Clean(a, e) && RunOk(a, e.i, timeout) && TidyRun(a, e.i)
    ensures Lost(NextAgent(a, 0, e), e)
  {
  }

  lemma LostIsOrphaned(s: Settings, w: WorkerId, next: System, e: Event)
    requires e.CreateFailed? || e.LookupFailed? || e.Cleanup?
    requires Lost(next.agent, e)
    ensures Orphan(ExecSystem(s, w, next, Ending(e)).agent, e.i)
  {
    if e.Cleanup? {
      ExecSnoc(s, w, next, [], Forget(e.i));
      assert [] + [Forget(e.i)] == [Forget(e.i)];
      AgentOnly(s, w, next, Forget(e.i));
    } else {
      GivingUpOrphans(s, w, next, e.i, 0, true);
    }
  }

  lemma UncleanOrphans(s: Settings, w: WorkerId, sys: System, e: Event)
    requires AgentOk(sys.db, sys.agent) && Tidy(sys.agent) && !Clean(sys.agent, e)
    ensures Orphan(ExecSystem(s, w, NextSystem(s, w, sys, e), Ending(e)).agent, e.i)
  {
    assert TidyRun(sys.agent, e.i);
    AgentOnly(s, w, sys, e);
    UncleanIsLost(sys.agent, e, if e.i < |sys.db.runs| then sys.db.runs[e.i].definition.timeoutSeconds else 0);
    LostIsOrphaned(s, w, NextSystem(s, w, sys, e), e);
  }

  /** The failure is the exact cause: from a tidy state, an event is clean if and only if every continuation without
      another failure keeps all containers journaled. */
  lemma CleanExactly(s: Settings, w: WorkerId, sys: System, e: Event)
    requires SystemOk(sys, w) && w in sys.db.workers && Tidy(sys.agent)
    ensures Clean(sys.agent, e) <==>
      forall events :: AllClean(s, w, NextSystem(s, w, sys, e), events) ==>
        AllJournaled(ExecSystem(s, w, NextSystem(s, w, sys, e), events).agent)
  {
    var next := NextSystem(s, w, sys, e);
    if Clean(sys.agent, e) {
      StepTidy(s, w, sys, e);
      SystemKeeps(s, w, sys, e);
      forall events | AllClean(s, w, next, events) ensures AllJournaled(ExecSystem(s, w, next, events).agent) {
        TidyFrom(s, w, next, events);
        TidyIsJournaled(ExecSystem(s, w, next, events).agent);
      }
    } else {
      EndingIsClean(s, w, next, e);
      UncleanOrphans(s, w, sys, e);
    }
  }

  lemma TidyIsJournaled(a: Agent)
    requires Tidy(a)
    ensures AllJournaled(a)
  {
    forall i | i in a.containers ensures i in a.journal { assert TidyRun(a, i); }
  }

  /** A run that comes back to a worker which still has its old container can never start: the name is taken,
      and the attempt ends in the case above. */
  lemma ReclaimCannotStart(s: Settings, w: WorkerId, sys: System, i: RunId, e: Event)
    requires In(sys.agent, i, Launching) && i in sys.agent.containers && !e.Crash? && e != TaskDied(i)
    ensures var a := NextSystem(s, w, sys, e).agent;
      && i in a.tasks && i in a.containers
      && (a.tasks[i] == sys.agent.tasks[i]
          || (In(a, i, Reporting(FAILURE)) && a.tasks[i].attached == sys.agent.tasks[i].attached))
  {
  }

  /** The offer of a run whose previous task is over but not yet forgotten is taken for a duplicate: the server
      then counts the run as this worker's, and the agent has no task and no entry for it. */
  lemma OfferLostToOldTask(s: Settings, w: WorkerId, sys: System, i: RunId)
    requires In(sys.agent, i, Acked) && i < |sys.db.runs| && HeldBy(sys.db.runs[i], w)
    ensures var end := NextSystem(s, w, NextSystem(s, w, NextSystem(s, w, sys, Offer(i)), Cleanup(i, true)), Forget(i));
      HeldBy(end.db.runs[i], w) && i !in end.agent.tasks && i !in end.agent.journal
  {
  }
}
