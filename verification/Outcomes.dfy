/** From the end of a container to the server's record: which outcome a task reports, and what the server then has. */
module Outcomes {
  import opened Wrappers
  import opened Runs
  import opened Dispatch
  import opened Views
  import opened Invariant
  import opened History
  import opened RowMoves
  import opened AgentProtocol
  import opened Bookkeeping
  import WorkerAgents

  // ---------------------------------------------------------------- the phases of a task, and since when

  /** This event has the task of run i report outcome o: its container ended so; or there is none to supervise, be it
      that it could not be created or started, or that it was not found again. */
  ghost predicate Causes(a: Agent, e: Event, i: RunId, o: RunState) {
    || (e == Exited(i, o) && In(a, i, Supervising) && o in {SUCCESS, FAILURE, TERMINATED})
    || (o == FAILURE && e == StartFailed(i) && In(a, i, Launching) && i !in a.containers)
    || (o == FAILURE && e.CreateFailed? && e.i == i && In(a, i, Launching))
    || (o == FAILURE && e == Gone(i) && In(a, i, Recovering) && i !in a.containers)
    || (o == FAILURE && e == LookupFailed(i) && In(a, i, Recovering))
  }

  /** This event brings the run's task to the phase. */
  ghost predicate Enters(a: Agent, e: Event, i: RunId, phase: Phase) {
    match phase
    case Fresh => e == Offer(i) && i !in a.tasks
    case Launching => e.Journaled? && e.i == i && In(a, i, Fresh)
    case Recovering => e.Greet? && i in a.journal && i !in a.tasks
    case Supervising =>
      || (e == Created(i) && In(a, i, Launching) && i !in a.containers)
      || (e == Found(i) && In(a, i, Recovering) && i in a.containers)
    case Reporting(o) => Causes(a, e, i, o)
    case Acked => Answers(e, i) && InReport(a, i)
    case Cleaned => e.Cleanup? && e.i == i && In(a, i, Acked)
  }

  /** This event ends the phase: the work of the phase is done, or the task is lost. */
  ghost predicate Leaves(a: Agent, e: Event, i: RunId, phase: Phase) {
    e.Crash? || e == TaskDied(i) ||
    match phase
    case Fresh => e.Journaled? && e.i == i
    case Launching => ((e == Created(i) || e == StartFailed(i)) && i !in a.containers) || (e.CreateFailed? && e.i == i)
    case Recovering =>
      (e == Found(i) && i in a.containers) || (e == Gone(i) && i !in a.containers) || e == LookupFailed(i)
    case Supervising => e.Exited? && e.i == i && e.outcome in {SUCCESS, FAILURE, TERMINATED}
    case Reporting(_) => Answers(e, i)
    case Acked => e.Cleanup? && e.i == i
    case Cleaned => e == Forget(i)
  }

  /** Offers are of runs that exist. */
  ghost predicate Brings(sys: System, e: Event, i: RunId, phase: Phase) {
    Possible(sys, e) && Enters(sys.agent, e, i, phase)
  }

  lemma NewPhase(a: Agent, offered: nat, e: Event, i: RunId, phase: Phase)
    requires !In(a, i, phase)
    ensures In(NextAgent(a, offered, e), i, phase) <==> Enters(a, e, i, phase)
  {
  }

  lemma OldPhase(a: Agent, offered: nat, e: Event, i: RunId, phase: Phase)
    requires In(a, i, phase)
    ensures In(NextAgent(a, offered, e), i, phase) <==> !Leaves(a, e, i, phase)
    ensures !Enters(a, e, i, phase)
  {
  }

  lemma AgentMoves(s: Settings, w: WorkerId, sys: System, e: Event) returns (offered: nat)
    requires Possible(sys, e)
    ensures NextSystem(s, w, sys, e).agent == NextAgent(sys.agent, offered, e)
  {
    offered := if e.Offer? then sys.db.runs[e.i].definition.timeoutSeconds else 0;
  }

  lemma PhaseStep(s: Settings, w: WorkerId, sys: System, e: Event, i: RunId, phase: Phase)
    ensures In(NextSystem(s, w, sys, e).agent, i, phase) <==>
      Brings(sys, e, i, phase) || (In(sys.agent, i, phase) && !Leaves(sys.agent, e, i, phase))
  {
    if Possible(sys, e) {
      var offered := AgentMoves(s, w, sys, e);
      if In(sys.agent, i, phase) {
        OldPhase(sys.agent, offered, e, i, phase);
      } else {
        NewPhase(sys.agent, offered, e, i, phase);
      }
    }
  }

  /** Event n brought the task to the phase, and none after it ended the phase. */
  ghost predicate InPhaseSince(s: Settings, w: WorkerId, sys: System, events: seq<Event>, n: nat, i: RunId,
                               phase: Phase)
  {
    && n < |events| && Brings(Before(s, w, sys, events, n), events[n], i, phase)
    && forall k: nat :: n < k < |events| ==> !Leaves(Before(s, w, sys, events, k).agent, events[k], i, phase)
  }

  lemma SinceSnoc(s: Settings, w: WorkerId, sys: System, front: seq<Event>, last: Event, i: RunId, phase: Phase)
    ensures (exists n: nat :: InPhaseSince(s, w, sys, front + [last], n, i, phase)) <==>
      || Brings(ExecSystem(s, w, sys, front), last, i, phase)
      || ((exists n: nat :: InPhaseSince(s, w, sys, front, n, i, phase))
          && !Leaves(ExecSystem(s, w, sys, front).agent, last, i, phase))
  {
    var events := front + [last];
    assert events[..|front|] == front && events[|front|] == last;
    forall k: nat | k < |front| ensures Before(s, w, sys, events, k) == Before(s, w, sys, front, k) {
      assert events[..k] == front[..k];
    }
    forall n: nat | n < |front|
      ensures InPhaseSince(s, w, sys, events, n, i, phase) <==>
        InPhaseSince(s, w, sys, front, n, i, phase) && !Leaves(ExecSystem(s, w, sys, front).agent, last, i, phase)
    {
      if InPhaseSince(s, w, sys, events, n, i, phase) {
        assert !Leaves(Before(s, w, sys, events, |front|).agent, events[|front|], i, phase);
      }
    }
    if Brings(ExecSystem(s, w, sys, front), last, i, phase) {
      assert InPhaseSince(s, w, sys, events, |front|, i, phase);
    }
  }

  /** After any events a task is in a phase if and only if one of them brought it there and none since has ended the
      phase. In particular a task reports outcome o if and only if an event caused that report, and its report has
      been neither answered nor lost since: no retry, no restart of the connection and nothing the server does
      changes the outcome. */
  lemma {:induction false} PhaseIs(s: Settings, w: WorkerId, sys: System, events: seq<Event>, i: RunId, phase: Phase)
    requires i !in sys.agent.tasks
    ensures In(ExecSystem(s, w, sys, events).agent, i, phase) <==>
      exists n: nat :: InPhaseSince(s, w, sys, events, n, i, phase)
  {
    if events != [] {
      var front, last := events[..|events|-1], events[|events|-1];
      assert events == front + [last];
      PhaseIs(s, w, sys, front, i, phase);
      SinceSnoc(s, w, sys, front, last, i, phase);
      PhaseStep(s, w, ExecSystem(s, w, sys, front), last, i, phase);
    }
  }

  // ---------------------------------------------------------------- what the server is told and records

  /** The run ended with outcome o. */
  ghost predicate EndedAs(db: Db, i: RunId, o: RunState, at: Time) {
    && i < |db.runs| && db.runs[i].state == o && db.runs[i].finishedAt == Some(at) && db.runs[i].token.None?
    && db.runs[i].result.status == (if o == SUCCESS then StatusSuccess
                                    else if o == FAILURE then StatusFailure else StatusRevoked)
  }

  /** A request to complete the run goes out exactly when its task reports, and carries what the task reports. */
  lemma RequestTellsOutcome(w: WorkerId, a: Agent, i: RunId, o: RunState, at: Time)
    ensures In(a, i, Reporting(o)) ==> Request(w, a, Reported(i, at)) == Some(Complete(w, i, o, at))
    ensures Request(w, a, Reported(i, at)) == Some(Complete(w, i, o, at)) ==> In(a, i, Reporting(o))
    ensures Request(w, a, Reported(i, at)).None? <==> !InReport(a, i)
  {
  }

  lemma CompletionEnds(s: Settings, db: Db, w: WorkerId, i: RunId, o: RunState, at: Time)
    requires Inv(db) && IsWith(db, i, w) && o in {SUCCESS, FAILURE, TERMINATED}
    ensures EndedAs(CompleteRun(db, s, w, i, o, at).0, i, o, at)
  {
    OwnedHasZone(db, w, i);
    var m := SettleMove(db, i, Finish(o, at), i, at);
  }

  lemma CompletionIgnored(s: Settings, db: Db, w: WorkerId, i: RunId, o: RunState, at: Time)
    requires !IsWith(db, i, w)
    ensures CompleteRun(db, s, w, i, o, at).0 == db
  {
  }

  lemma HandledReport(s: Settings, w: WorkerId, sys: System, i: RunId, o: RunState, at: Time)
    requires In(sys.agent, i, Reporting(o))
    ensures NextSystem(s, w, sys, Reported(i, at)).db == CompleteRun(sys.db, s, w, i, o, at).0
  {
  }

  /** Handled by the server, the report of a run that is with the worker ends the run with the reported outcome; of
      a run that is not, it changes nothing. */
  lemma ServerRecords(s: Settings, w: WorkerId, sys: System, i: RunId, o: RunState, at: Time)
    requires SystemOk(sys, w) && In(sys.agent, i, Reporting(o))
    ensures IsWith(sys.db, i, w) ==> EndedAs(NextSystem(s, w, sys, Reported(i, at)).db, i, o, at)
    ensures !IsWith(sys.db, i, w) ==> NextSystem(s, w, sys, Reported(i, at)).db == sys.db
  {
    HandledReport(s, w, sys, i, o, at);
    if IsWith(sys.db, i, w) {
      CompletionEnds(s, sys.db, w, i, o, at);
    } else {
      CompletionIgnored(s, sys.db, w, i, o, at);
    }
  }

  lemma ExitReports(s: Settings, w: WorkerId, sys: System, i: RunId, o: RunState)
    requires In(sys.agent, i, Supervising) && o in {SUCCESS, FAILURE, TERMINATED}
    ensures In(NextSystem(s, w, sys, Exited(i, o)).agent, i, Reporting(o))
    ensures NextSystem(s, w, sys, Exited(i, o)).db == sys.db
  {
  }

  /** A supervised container ends: what the server has after the report is what the container ended with. */
  lemma ExitIsRecorded(s: Settings, w: WorkerId, sys: System, i: RunId, o: RunState, at: Time)
    requires SystemOk(sys, w) && w in sys.db.workers && In(sys.agent, i, Supervising) && IsWith(sys.db, i, w)
    requires o in {SUCCESS, FAILURE, TERMINATED}
    ensures EndedAs(NextSystem(s, w, NextSystem(s, w, sys, Exited(i, o)), Reported(i, at)).db, i, o, at)
  {
    SystemKeeps(s, w, sys, Exited(i, o));
    ExitReports(s, w, sys, i, o);
    ServerRecords(s, w, NextSystem(s, w, sys, Exited(i, o)), i, o, at);
  }

  /** So the server's record follows from how the container stopped: TERMINATED if a cancel stopped it, whatever else
      happened; SUCCESS if nothing stopped it and it exited with 0; FAILURE in every other case. */
  lemma EndingIsRecorded(s: Settings, w: WorkerId, sys: System, i: RunId, ending: WorkerAgents.Ending, at: Time)
    requires SystemOk(sys, w) && w in sys.db.workers && In(sys.agent, i, Supervising) && IsWith(sys.db, i, w)
    ensures var exited := NextSystem(s, w, sys, Exited(i, WorkerAgents.Classify(ending)));
      var d := NextSystem(s, w, exited, Reported(i, at)).db;
      && i < |d.runs| && d.runs[i].state in {SUCCESS, FAILURE, TERMINATED}
      && (d.runs[i].state == TERMINATED <==> ending.terminated)
      && (d.runs[i].state == SUCCESS <==>
            && !ending.terminated && !ending.timedOut && !ending.leaseLost && !ending.failed
            && ending.exitCode == Some(0))
  {
    ExitIsRecorded(s, w, sys, i, WorkerAgents.Classify(ending), at);
  }

  /** Over whole histories: when a report that was caused with outcome o, and was not answered or lost since, is handled
      while the run is with the worker, the run ends with outcome o. */
  lemma HistoryIsRecorded(s: Settings, w: WorkerId, workers: map<WorkerId, Worker>, events: seq<Event>, n: nat,
                          i: RunId, o: RunState, at: Time)
    requires w in workers && InPhaseSince(s, w, Boot(workers), events, n, i, Reporting(o))
    requires IsWith(ExecSystem(s, w, Boot(workers), events).db, i, w)
    ensures EndedAs(ExecSystem(s, w, Boot(workers), events + [Reported(i, at)]).db, i, o, at)
  {
    PhaseIs(s, w, Boot(workers), events, i, Reporting(o));
    AlwaysOk(s, w, workers, events);
    ExecSnoc(s, w, Boot(workers), events, Reported(i, at));
    ServerRecords(s, w, ExecSystem(s, w, Boot(workers), events), i, o, at);
  }

  // ---------------------------------------------------------------- what a crash leaves

  /** A crash loses the tasks and nothing else; the next greeting brings back a task for each journaled run, to look its
      container up under the deadline it had. */
  lemma CrashLosesTasks(s: Settings, w: WorkerId, sys: System, capacity: int, capabilities: set<string>, at: Time,
                        i: RunId)
    ensures var down := NextSystem(s, w, sys, Crash);
      && down.db == sys.db && down.agent.tasks == map[]
      && down.agent.journal == sys.agent.journal && down.agent.containers == sys.agent.containers
    ensures var up := NextSystem(s, w, NextSystem(s, w, sys, Crash), Greet(capacity, capabilities, at)).agent;
      && up.journal == sys.agent.journal && up.containers == sys.agent.containers
      && (i in up.tasks <==> i in sys.agent.journal)
      && (i in sys.agent.journal ==>
            && up.tasks[i].phase == Recovering && !up.tasks[i].attached
            && up.tasks[i].timeout == sys.agent.journal[i].timeout
            && up.tasks[i].deadline == Some(sys.agent.journal[i].startedAt + sys.agent.journal[i].timeout))
  {
  }
}
