/** The worker agent in its own form: tasks, journal and containers updated step by step. Each method is
    proved to do to them what its event in module AgentProtocol says. */
module WorkerAgents {
  import opened Wrappers
  import opened Runs
  import P = AgentProtocol

  /** What the container engine answers. */
  datatype Creation = Started | NotStarted | NotCreated(left: bool)
  datatype Lookup = Running | Missing | Failing

  /** Why a container stopped, as the flags of its RunTask record it. */
  datatype Ending = Ending(terminated: bool, timedOut: bool, leaseLost: bool, failed: bool, exitCode: Option<int>)

  /** `_classify`: a cancel wins over a timeout, a timeout over a lost lease, any of them over the exit code. */
  function Classify(e: Ending): (outcome: RunState)
    ensures outcome == SUCCESS <==> e == Ending(false, false, false, false, Some(0))
    ensures outcome == TERMINATED <==> e.terminated
    ensures outcome in {SUCCESS, FAILURE, TERMINATED}
  {
    if e.terminated then TERMINATED
    else if e.timedOut || e.leaseLost || e.failed then FAILURE
    else if e.exitCode == Some(0) then SUCCESS
    else FAILURE
  }

  /** The offers of one claim, one after the other. */
  function OffersTaken(a: P.Agent, offers: seq<RunId>, timeouts: seq<nat>): P.Agent
    requires |offers| == |timeouts|
  {
    if offers == [] then a else
    var k := |offers| - 1;
    P.NextAgent(OffersTaken(a, offers[..k], timeouts[..k]), timeouts[k], P.Offer(offers[k]))
  }

  /** What run i has after a claim: its earlier task, or else a new one with the timeout of its first offer. */
  lemma {:induction false} OffersTakenAre(a: P.Agent, offers: seq<RunId>, timeouts: seq<nat>, i: RunId)
    requires |offers| == |timeouts|
    ensures var b := OffersTaken(a, offers, timeouts);
      && b.journal == a.journal && b.containers == a.containers
      && (i in b.tasks <==> i in a.tasks || i in offers)
      && (i in a.tasks ==> b.tasks[i] == a.tasks[i])
      && forall k :: 0 <= k < |offers| && offers[k] == i && i !in offers[..k] && i !in a.tasks ==>
           b.tasks[i] == P.Task(P.Fresh, false, timeouts[k], None)
  {
    if offers != [] {
      var n := |offers| - 1;
      OffersTakenAre(a, offers[..n], timeouts[..n], i);
      assert offers == offers[..n] + [offers[n]];
      assert forall k :: 0 <= k <= n ==> offers[..n][..k] == offers[..k];
    }
  }

  lemma RecoveredIs(a: P.Agent, tasks: map<RunId, P.Task>)
    requires forall i :: i in tasks <==> i in a.tasks || i in a.journal
    requires forall i :: i in tasks ==> tasks[i] == if i in a.tasks then a.tasks[i] else P.RecoveryOf(a.journal[i])
    ensures a.(tasks := tasks) == P.Recovered(a)
  {
  }

  class WorkerAgent {
    var tasks: map<RunId, P.Task>
    var journal: map<RunId, P.Entry>
    var containers: set<RunId>

    /** A started agent finds the journal and the containers its predecessor left. */
    constructor (journal: map<RunId, P.Entry>, containers: set<RunId>)
      ensures Snapshot() == P.Agent(map[], journal, containers)
    {
      this.tasks := map[];
      this.journal := journal;
      this.containers := containers;
    }

    ghost function Snapshot(): P.Agent
      reads this
    {
      P.Agent(tasks, journal, containers)
    }

    method StartRun(i: RunId, timeout: nat)
      modifies this`tasks
      ensures Snapshot() == P.NextAgent(old(Snapshot()), timeout, P.Offer(i))
      ensures i in tasks && (i !in old(tasks) ==> tasks[i] == P.Task(P.Fresh, false, timeout, None))
      ensures forall j :: j in old(tasks) ==> j in tasks && tasks[j] == old(tasks)[j]
    {
      if i in tasks {
        return;
      }
      tasks := tasks[i := P.Task(P.Fresh, false, timeout, None)];
    }

    /** The offers of one claim. */
    method StartRuns(offers: seq<RunId>, timeouts: seq<nat>)
      requires |offers| == |timeouts|
      modifies this`tasks
      ensures Snapshot() == OffersTaken(old(Snapshot()), offers, timeouts)
    {
      for k := 0 to |offers|
        invariant Snapshot() == OffersTaken(old(Snapshot()), offers[..k], timeouts[..k])
      {
        StartRun(offers[k], timeouts[k]);
        assert offers[..k+1][..k] == offers[..k] && timeouts[..k+1][..k] == timeouts[..k];
      }
      assert offers[..|offers|] == offers && timeouts[..|offers|] == timeouts;
    }

    method JournalAdd(i: RunId, timeout: nat, at: Time) returns (entry: P.Entry)
      modifies this`journal
      ensures journal == P.Recorded(old(journal), i, timeout, at) && i in journal && entry == journal[i]
    {
      if i in journal {
        return journal[i];
      }
      entry := P.Entry(at, timeout);
      journal := journal[i := entry];
    }

    /** The fresh path of a task: journal first, then create the container. */
    method BeginRun(i: RunId, at: Time)
      requires P.In(Snapshot(), i, P.Fresh)
      modifies this`tasks, this`journal
      ensures Snapshot() == P.NextAgent(old(Snapshot()), 0, P.Journaled(i, at))
      ensures i in journal
      ensures journal[i] == if i in old(journal) then old(journal)[i] else P.Entry(at, old(tasks)[i].timeout)
      ensures i in tasks && tasks[i].phase == P.Launching
      ensures tasks[i].deadline == Some(journal[i].startedAt + old(tasks)[i].timeout)
    {
      var entry := JournalAdd(i, tasks[i].timeout, at);
      tasks := tasks[i := tasks[i].(phase := P.Launching, deadline := Some(entry.startedAt + tasks[i].timeout))];
    }

    method CreateContainer(i: RunId, answer: Creation)
      requires P.In(Snapshot(), i, P.Launching) && (i in containers ==> answer.NotCreated?)
      modifies this`tasks, this`containers
      ensures Snapshot() == P.NextAgent(old(Snapshot()), 0,
        match answer
        case Started => P.Created(i)
        case NotStarted => P.StartFailed(i)
        case NotCreated(left) => P.CreateFailed(i, left))
      ensures i in tasks && tasks[i].phase == if answer.Started? then P.Supervising else P.Reporting(FAILURE)
      ensures tasks[i].attached <==> !answer.NotCreated? || old(tasks)[i].attached
      ensures i in containers <==> !answer.NotCreated? || answer.left || i in old(containers)
    {
      match answer
      case Started =>
        containers := containers + {i};
        tasks := tasks[i := tasks[i].(phase := P.Supervising, attached := true)];
      case NotStarted =>
        containers := containers + {i};
        tasks := tasks[i := tasks[i].(phase := P.Reporting(FAILURE), attached := true)];
      case NotCreated(left) =>
        if left {
          containers := containers + {i};
        }
        tasks := tasks[i := tasks[i].(phase := P.Reporting(FAILURE))];
    }

    /** The path after a restart: attach to the container, or report that it is lost. */
    method RecoverRun(i: RunId, answer: Lookup)
      requires P.In(Snapshot(), i, P.Recovering)
      requires (answer.Running? ==> i in containers) && (answer.Missing? ==> i !in containers)
      modifies this`tasks
      ensures Snapshot() == P.NextAgent(old(Snapshot()), 0,
        match answer case Running => P.Found(i) case Missing => P.Gone(i) case Failing => P.LookupFailed(i))
      ensures i in tasks && tasks[i].phase == if answer.Running? then P.Supervising else P.Reporting(FAILURE)
      ensures tasks[i].attached <==> answer.Running? || old(tasks)[i].attached
    {
      match answer
      case Running =>
        assert containers + {i} == containers;
        tasks := tasks[i := tasks[i].(phase := P.Supervising, attached := true)];
      case Missing =>
        tasks := tasks[i := tasks[i].(phase := P.Reporting(FAILURE))];
      case Failing =>
        tasks := tasks[i := tasks[i].(phase := P.Reporting(FAILURE))];
    }

    method ContainerExited(i: RunId, ending: Ending)
      requires P.In(Snapshot(), i, P.Supervising)
      modifies this`tasks
      ensures Snapshot() == P.NextAgent(old(Snapshot()), 0, P.Exited(i, Classify(ending)))
      ensures i in tasks && tasks[i].phase.Reporting?
      ensures tasks[i].phase.outcome == TERMINATED <==> ending.terminated
      ensures tasks[i].phase.outcome == SUCCESS <==> ending == Ending(false, false, false, false, Some(0))
      ensures tasks[i].phase.outcome in {SUCCESS, FAILURE, TERMINATED}
    {
      var outcome := Classify(ending);
      tasks := tasks[i := tasks[i].(phase := P.Reporting(outcome))];
    }

    /** Any answer to job.complete ends the report: a refusal, and also an error that does not come from the server's
        completion, which the agent cannot tell from one. */
    method CompleteAnswered(i: RunId, at: Time)
      requires P.InReport(Snapshot(), i)
      modifies this`tasks
      ensures Snapshot() == P.NextAgent(old(Snapshot()), 0, P.Reported(i, at))
      ensures Snapshot() == P.NextAgent(old(Snapshot()), 0, P.Unhandled(i))
      ensures i in tasks && tasks[i].phase == P.Acked && tasks[i].attached == old(tasks)[i].attached
    {
      tasks := tasks[i := tasks[i].(phase := P.Acked)];
    }

    /** The container goes first, then the journal entry, then the RunTask itself. */
    method CleanUp(i: RunId, removed: bool)
      requires P.In(Snapshot(), i, P.Acked)
      modifies this
      ensures Snapshot() == P.NextAgent(P.NextAgent(old(Snapshot()), 0, P.Cleanup(i, removed)), 0, P.Forget(i))
      ensures tasks == old(tasks) - {i} && journal == old(journal) - {i}
      ensures containers == old(containers) - (if old(tasks)[i].attached && removed then {i} else {})
    {
      if tasks[i].attached && removed {
        containers := containers - {i};
      }
      journal := journal - {i};
      tasks := tasks - {i};
    }

    method InFlight() returns (ids: set<RunId>)
      ensures ids == P.InFlightIds(Snapshot())
    {
      ids := tasks.Keys + journal.Keys;
    }

    /** A task for every journaled run that has none. */
    method RecoverJournaledRuns()
      modifies this`tasks
      ensures Snapshot() == P.Recovered(old(Snapshot()))
      ensures tasks.Keys == old(tasks).Keys + journal.Keys
      ensures forall i :: i in old(tasks) ==> tasks[i] == old(tasks)[i]
    {
      var left := journal.Keys;
      while left != {}
        invariant left <= journal.Keys
        invariant forall i :: i in tasks <==> i in old(tasks) || (i in journal && i !in left)
        invariant forall i :: i in tasks ==>
          tasks[i] == if i in old(tasks) then old(tasks)[i] else P.RecoveryOf(journal[i])
        decreases |left|
      {
        var i :| i in left;
        left := left - {i};
        if i !in tasks {
          tasks := tasks[i := P.RecoveryOf(journal[i])];
        }
      }
      RecoveredIs(old(Snapshot()), tasks);
    }
  }
}
