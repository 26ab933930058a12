/** Concrete histories from an empty database that end in the states which the guarantees leave open. */
module Witnesses {
  import opened Wrappers
  import opened Runs
  import opened Dispatch
  import opened History
  import opened Submission
  import opened AgentProtocol

  /** One zone, one worker in it, and a definition pinned to it that is retried once. */
  const HOME := Zone("home", 0, true, WaitForCapacity, 60, [])
  const JOB := Definition("job", true, false, 1, {}, Pinned, Some(HOME), false, 30)
  const WORKERS: map<WorkerId, Worker> := map["w" := Worker(HOME, true, false, {}, 1, None)]
  const SETTINGS := Settings(1, 1, 1)

  const SUBMIT := SubmitRun(JOB, Some(HOME), 0)
  const FIRST := NewRun(JOB, None, Some(HOME), [], 0)

  // ---------------------------------------------------------------- steps on a database of one run

  /** One run of JOB without a parent, and the worker. */
  ghost predicate Single(db: Db, r: Run) {
    && db.runs == [r] && r.definition == JOB && r.zone == Some(HOME) && r.parent.None?
    && "w" in db.workers && db.workers["w"].zone == HOME
  }

  /** The zone in these histories is the one that the submission resolves. */
  lemma SubmitsIt()
    ensures JOB.enabled && Placed(Start(WORKERS), SETTINGS, JOB, [HOME], 0) == Some(HOME)
    ensures Single(Next(SETTINGS, Start(WORKERS), SUBMIT), FIRST)
  {
  }

  lemma ClaimsIt(db: Db, r: Run, at: Time)
    requires Single(db, r) && r.state == PENDING
    ensures var d := Next(SETTINGS, db, ClaimNext("w", at));
      Single(d, Claimed(r, "w", at + 1, db.nextToken, at)) && d.workers == Touched(db, "w", SETTINGS, at).workers
  {
    assert Pick(db.runs, db.workers["w"], 0, 0) == Some(0);
  }

  lemma ReapsIt(db: Db, r: Run, at: Time)
    requires Single(db, r) && Held(r.state) && r.lease.Some?
    ensures Single(Next(SETTINGS, db, Reap(0, at)), Abandoned(r, at))
  {
  }

  lemma CompletesIt(db: Db, r: Run, at: Time)
    requires Single(db, r) && HeldBy(r, "w")
    ensures Single(Next(SETTINGS, db, Complete("w", 0, SUCCESS, at)), Completed(r, SUCCESS, at))
  {
    var d := Settle(db, 0, Finish(SUCCESS, at), at);
    assert d.runs == [Completed(r, SUCCESS, at)] && d.workers == db.workers;
  }

  lemma CancelsIt(db: Db, r: Run, at: Time)
    requires Single(db, r) && HeldBy(r, "w") && WorkerStatusOf(db.workers["w"], SETTINGS, at) == Offline
    ensures CancelOne(db, SETTINGS, 0, at).1 == WorkerOffline
    ensures Single(Next(SETTINGS, db, CancelRow(0, at)), Abandoned(r, at))
  {
  }

  lemma ExecSnocs(steps: seq<Step>, step: Step)
    ensures Exec(SETTINGS, Start(WORKERS), steps + [step])
         == Next(SETTINGS, Exec(SETTINGS, Start(WORKERS), steps), step)
  {
  }

  const CLAIMED_ONCE := Claimed(FIRST, "w", 1, 0, 0)

  /** The run was submitted and claimed, and its worker was heard from at that time. */
  lemma ClaimedOnce() returns (db: Db)
    ensures db == Exec(SETTINGS, Start(WORKERS), [SUBMIT, ClaimNext("w", 0)])
    ensures Single(db, CLAIMED_ONCE) && db.workers["w"].lastSeen == Some(0)
  {
    ExecSnocs([], SUBMIT);
    ExecSnocs([SUBMIT], ClaimNext("w", 0));
    assert [] + [SUBMIT] == [SUBMIT] && [SUBMIT] + [ClaimNext("w", 0)] == [SUBMIT, ClaimNext("w", 0)];
    SubmitsIt();
    ClaimsIt(Next(SETTINGS, Start(WORKERS), SUBMIT), FIRST, 0);
    db := Exec(SETTINGS, Start(WORKERS), [SUBMIT, ClaimNext("w", 0)]);
  }

  // ---------------------------------------------------------------- a cancelled run is queued again

  lemma CancelledRunIsQueuedAgain()
    ensures var db := Exec(SETTINGS, Start(WORKERS), [SUBMIT, ClaimNext("w", 0)]);
      |db.runs| == 1 && CancelOne(db, SETTINGS, 0, 5).1 == WorkerOffline
    ensures var runs := Exec(SETTINGS, Start(WORKERS), [SUBMIT, ClaimNext("w", 0), CancelRow(0, 5)]).runs;
      |runs| == 1 && runs[0].state == PENDING && runs[0].attempt == 2 && !runs[0].result.cancelRequested
  {
    var db := ClaimedOnce();
    CancelsIt(db, CLAIMED_ONCE, 5);
    ExecSnocs([SUBMIT, ClaimNext("w", 0)], CancelRow(0, 5));
    assert [SUBMIT, ClaimNext("w", 0)] + [CancelRow(0, 5)] == [SUBMIT, ClaimNext("w", 0), CancelRow(0, 5)];
  }

  // ---------------------------------------------------------------- a success that shows a revocation

  const RETRIED: seq<Step> := [SUBMIT, ClaimNext("w", 0), Reap(0, 2), ClaimNext("w", 2)]

  lemma RetriedOnce() returns (db: Db)
    ensures db == Exec(SETTINGS, Start(WORKERS), RETRIED)
    ensures |db.runs| == 1 && Single(db, db.runs[0]) && HeldBy(db.runs[0], "w")
    ensures db.runs[0].attempt == 2 && db.runs[0].result.revocation == Some(RevokedAbandoned)
  {
    var first := ClaimedOnce();
    ExecSnocs([SUBMIT, ClaimNext("w", 0)], Reap(0, 2));
    ExecSnocs([SUBMIT, ClaimNext("w", 0), Reap(0, 2)], ClaimNext("w", 2));
    assert [SUBMIT, ClaimNext("w", 0)] + [Reap(0, 2)] == [SUBMIT, ClaimNext("w", 0), Reap(0, 2)];
    assert [SUBMIT, ClaimNext("w", 0), Reap(0, 2)] + [ClaimNext("w", 2)] == RETRIED;
    ReapsIt(first, CLAIMED_ONCE, 2);
    ClaimsIt(Next(SETTINGS, first, Reap(0, 2)), Abandoned(CLAIMED_ONCE, 2), 2);
    db := Exec(SETTINGS, Start(WORKERS), RETRIED);
  }

  lemma SuccessShowsRevocation()
    ensures var runs := Exec(SETTINGS, Start(WORKERS), RETRIED + [Complete("w", 0, SUCCESS, 3)]).runs;
      |runs| == 1 && runs[0].state == SUCCESS && runs[0].result.revocation == Some(RevokedAbandoned)
  {
    var db := RetriedOnce();
    ExecSnocs(RETRIED, Complete("w", 0, SUCCESS, 3));
    CompletesIt(db, db.runs[0], 3);
  }

  // ---------------------------------------------------------------- histories with the agent

  lemma {:induction false} ExecAppend(sys: System, front: seq<Event>, back: seq<Event>)
    ensures ExecSystem(SETTINGS, "w", sys, front + back)
         == ExecSystem(SETTINGS, "w", ExecSystem(SETTINGS, "w", sys, front), back)
  {
    if back == [] {
      assert front + back == front;
    } else {
      var middle, last := back[..|back|-1], back[|back|-1];
      assert front + back == (front + middle) + [last];
      ExecSnoc(SETTINGS, "w", sys, front + middle, last);
      ExecAppend(sys, front, middle);
    }
  }

  lemma TwoEvents(sys: System, a: Event, b: Event)
    ensures ExecSystem(SETTINGS, "w", sys, [a, b]) == NextSystem(SETTINGS, "w", NextSystem(SETTINGS, "w", sys, a), b)
  {
    ExecSnoc(SETTINGS, "w", sys, [], a);
    ExecSnoc(SETTINGS, "w", sys, [a], b);
    assert [] + [a] == [a] && [a] + [b] == [a, b];
  }

  lemma ThreeEvents(sys: System, a: Event, b: Event, c: Event)
    ensures ExecSystem(SETTINGS, "w", sys, [a, b, c])
         == NextSystem(SETTINGS, "w", NextSystem(SETTINGS, "w", NextSystem(SETTINGS, "w", sys, a), b), c)
  {
    TwoEvents(sys, a, b);
    ExecSnoc(SETTINGS, "w", sys, [a, b], c);
    assert [a, b] + [c] == [a, b, c];
  }

  const OFFERED_ONCE: seq<Event> := [Server(SUBMIT), Server(ClaimNext("w", 0)), Offer(0)]

  /** The run is with the worker, and the agent has just taken the offer. */
  lemma OfferedOnce() returns (sys: System)
    ensures sys == ExecSystem(SETTINGS, "w", Boot(WORKERS), OFFERED_ONCE)
    ensures Single(sys.db, CLAIMED_ONCE)
    ensures sys.agent == Agent(map[0 := Task(Fresh, false, 30, None)], map[], {})
  {
    ThreeEvents(Boot(WORKERS), Server(SUBMIT), Server(ClaimNext("w", 0)), Offer(0));
    SubmitsIt();
    ClaimsIt(Next(SETTINGS, Start(WORKERS), SUBMIT), FIRST, 0);
    sys := ExecSystem(SETTINGS, "w", Boot(WORKERS), OFFERED_ONCE);
  }

  // ---------------------------------------------------------------- an orphaned container

  const CRASHED: seq<Event> := [Journaled(0, 0), Created(0), Crash]
  const RESTARTED: seq<Event> := [Greet(1, {}, 1), LookupFailed(0)]
  const REPORTED: seq<Event> := [Reported(0, 1), Cleanup(0, true), Forget(0)]

  lemma ContainerLeft(sys: System)
    requires sys.agent == Agent(map[0 := Task(Fresh, false, 30, None)], map[], {})
    ensures ExecSystem(SETTINGS, "w", sys, CRASHED).agent == Agent(map[], map[0 := Entry(0, 30)], {0})
  {
    ThreeEvents(sys, Journaled(0, 0), Created(0), Crash);
    var journaled := NextSystem(SETTINGS, "w", sys, Journaled(0, 0));
    var created := NextSystem(SETTINGS, "w", journaled, Created(0));
    AgentOnly(SETTINGS, "w", sys, Journaled(0, 0));
    AgentOnly(SETTINGS, "w", journaled, Created(0));
    AgentOnly(SETTINGS, "w", created, Crash);
  }

  lemma LookupFails(sys: System)
    requires sys.agent == Agent(map[], map[0 := Entry(0, 30)], {0})
    ensures var a := ExecSystem(SETTINGS, "w", sys, RESTARTED).agent;
      In(a, 0, Reporting(FAILURE)) && !a.tasks[0].attached && 0 in a.containers
  {
    TwoEvents(sys, Greet(1, {}, 1), LookupFailed(0));
    var greeted := NextSystem(SETTINGS, "w", sys, Greet(1, {}, 1));
    AgentOnly(SETTINGS, "w", sys, Greet(1, {}, 1));
    AgentOnly(SETTINGS, "w", greeted, LookupFailed(0));
  }

  /** The agent crashes while the run's container is there, fails to look it up after the restart, reports the run
      and forgets it: the container stays without journal entry and task. */
  lemma ContainerIsOrphaned()
    ensures Orphan(ExecSystem(SETTINGS, "w", Boot(WORKERS), OFFERED_ONCE + CRASHED + RESTARTED + REPORTED).agent, 0)
  {
    var offered := OfferedOnce();
    var crashed := ExecSystem(SETTINGS, "w", offered, CRASHED);
    ExecAppend(Boot(WORKERS), OFFERED_ONCE, CRASHED);
    ContainerLeft(offered);
    ExecAppend(Boot(WORKERS), OFFERED_ONCE + CRASHED, RESTARTED);
    LookupFails(crashed);
    ExecAppend(Boot(WORKERS), OFFERED_ONCE + CRASHED + RESTARTED, REPORTED);
    GivingUpOrphans(SETTINGS, "w", ExecSystem(SETTINGS, "w", crashed, RESTARTED), 0, 1, true);
  }

  // ---------------------------------------------------------------- an offer taken for a duplicate

  const TAKEN_AWAY: seq<Event> := [Journaled(0, 0), CreateFailed(0, false), Server(Reap(0, 2))]
  const CLAIMED_AGAIN: seq<Event> := [Reported(0, 2), Server(ClaimNext("w", 2))]
  const FORGOTTEN: seq<Event> := [Offer(0), Cleanup(0, true), Forget(0)]

  const REPORTING := Agent(map[0 := Task(Reporting(FAILURE), false, 30, Some(30))], map[0 := Entry(0, 30)], {})

  /** The agent still reports a failure of the run, which is back in the queue. */
  ghost predicate Queued(sys: System) {
    Single(sys.db, Abandoned(CLAIMED_ONCE, 2)) && sys.agent == REPORTING
  }

  lemma CreationFails(sys: System) returns (failed: System)
    requires sys.agent == Agent(map[0 := Task(Fresh, false, 30, None)], map[], {})
    ensures failed == NextSystem(SETTINGS, "w", NextSystem(SETTINGS, "w", sys, Journaled(0, 0)), CreateFailed(0, false))
    ensures failed.db == sys.db && failed.agent == REPORTING
  {
    var journaled := NextSystem(SETTINGS, "w", sys, Journaled(0, 0));
    failed := NextSystem(SETTINGS, "w", journaled, CreateFailed(0, false));
    AgentOnly(SETTINGS, "w", sys, Journaled(0, 0));
    AgentOnly(SETTINGS, "w", journaled, CreateFailed(0, false));
  }

  lemma ReapedMeanwhile(sys: System)
    requires Single(sys.db, CLAIMED_ONCE) && sys.agent == REPORTING
    ensures Queued(NextSystem(SETTINGS, "w", sys, Server(Reap(0, 2))))
  {
    ReapsIt(sys.db, CLAIMED_ONCE, 2);
  }

  lemma TakenAway(sys: System)
    requires Single(sys.db, CLAIMED_ONCE) && sys.agent == Agent(map[0 := Task(Fresh, false, 30, None)], map[], {})
    ensures Queued(ExecSystem(SETTINGS, "w", sys, TAKEN_AWAY))
  {
    ThreeEvents(sys, Journaled(0, 0), CreateFailed(0, false), Server(Reap(0, 2)));
    var failed := CreationFails(sys);
    ReapedMeanwhile(failed);
  }

  lemma ClaimedAgain(sys: System)
    requires Queued(sys)
    ensures var next := ExecSystem(SETTINGS, "w", sys, CLAIMED_AGAIN);
      |next.db.runs| == 1 && HeldBy(next.db.runs[0], "w") && In(next.agent, 0, Acked)
  {
    TwoEvents(sys, Reported(0, 2), Server(ClaimNext("w", 2)));
    var reported := NextSystem(SETTINGS, "w", sys, Reported(0, 2));
    assert reported.db == sys.db;
    ClaimsIt(reported.db, Abandoned(CLAIMED_ONCE, 2), 2);
  }

  lemma NothingLeft(sys: System)
    requires |sys.db.runs| == 1 && HeldBy(sys.db.runs[0], "w") && In(sys.agent, 0, Acked)
    ensures var end := ExecSystem(SETTINGS, "w", sys, FORGOTTEN);
      |end.db.runs| == 1 && HeldBy(end.db.runs[0], "w") && 0 !in end.agent.tasks && 0 !in end.agent.journal
  {
    ThreeEvents(sys, Offer(0), Cleanup(0, true), Forget(0));
    OfferLostToOldTask(SETTINGS, "w", sys, 0);
  }

  /** The run is claimed again by the worker whose previous task of it is over and not yet forgotten: the server
      counts the run as this worker's, and the agent has neither a task nor an entry for it. */
  lemma OfferIsLost()
    ensures var end := ExecSystem(SETTINGS, "w", Boot(WORKERS), OFFERED_ONCE + TAKEN_AWAY + CLAIMED_AGAIN + FORGOTTEN);
      |end.db.runs| == 1 && HeldBy(end.db.runs[0], "w") && 0 !in end.agent.tasks && 0 !in end.agent.journal
  {
    var offered := OfferedOnce();
    var queued := ExecSystem(SETTINGS, "w", offered, TAKEN_AWAY);
    var again := ExecSystem(SETTINGS, "w", queued, CLAIMED_AGAIN);
    ExecAppend(Boot(WORKERS), OFFERED_ONCE, TAKEN_AWAY);
    TakenAway(offered);
    ExecAppend(Boot(WORKERS), OFFERED_ONCE + TAKEN_AWAY, CLAIMED_AGAIN);
    ClaimedAgain(queued);
    ExecAppend(Boot(WORKERS), OFFERED_ONCE + TAKEN_AWAY + CLAIMED_AGAIN, FORGOTTEN);
    NothingLeft(again);
  }

  // ---------------------------------------------------------------- a report answered by the rate limiter

  const SUCCEEDED: seq<Event> := [Journaled(0, 0), Created(0), Exited(0, SUCCESS)]
  const RATE_LIMITED: seq<Event> := [Unhandled(0), Cleanup(0, true), Forget(0)]

  lemma Succeeded(sys: System)
    requires Single(sys.db, CLAIMED_ONCE) && sys.agent == Agent(map[0 := Task(Fresh, false, 30, None)], map[], {})
    ensures var next := ExecSystem(SETTINGS, "w", sys, SUCCEEDED);
      next.db == sys.db && In(next.agent, 0, Reporting(SUCCESS))
  {
    ThreeEvents(sys, Journaled(0, 0), Created(0), Exited(0, SUCCESS));
    var journaled := NextSystem(SETTINGS, "w", sys, Journaled(0, 0));
    var created := NextSystem(SETTINGS, "w", journaled, Created(0));
    AgentOnly(SETTINGS, "w", sys, Journaled(0, 0));
    AgentOnly(SETTINGS, "w", journaled, Created(0));
    AgentOnly(SETTINGS, "w", created, Exited(0, SUCCESS));
  }

  /** A run succeeds, and its report is answered by the gateway's rate limiter: the server still has the run with the
      worker, and the agent has forgotten it. */
  lemma ReportIsLost() returns (end: System)
    ensures end == ExecSystem(SETTINGS, "w", Boot(WORKERS), OFFERED_ONCE + SUCCEEDED + RATE_LIMITED)
    ensures |end.db.runs| == 1 && HeldBy(end.db.runs[0], "w")
    ensures end.db.runs[0].attempt == 1 && RetriesLeft(end.db.runs[0])
    ensures 0 !in end.agent.tasks && 0 !in end.agent.journal
  {
    var offered := OfferedOnce();
    var succeeded := ExecSystem(SETTINGS, "w", offered, SUCCEEDED);
    ExecAppend(Boot(WORKERS), OFFERED_ONCE, SUCCEEDED);
    Succeeded(offered);
    ExecAppend(Boot(WORKERS), OFFERED_ONCE + SUCCEEDED, RATE_LIMITED);
    ThreeEvents(succeeded, Unhandled(0), Cleanup(0, true), Forget(0));
    ErrorAnswerLosesRun(SETTINGS, "w", succeeded, 0, true);
    end := ExecSystem(SETTINGS, "w", Boot(WORKERS), OFFERED_ONCE + SUCCEEDED + RATE_LIMITED);
  }

  /** After the next hello the run, which has succeeded, is queued for its second attempt. */
  lemma SucceededRunIsRetried()
    ensures var events := OFFERED_ONCE + SUCCEEDED + RATE_LIMITED + [Greet(1, {}, 1)];
      var end := ExecSystem(SETTINGS, "w", Boot(WORKERS), events);
      |end.db.runs| > 0 && end.db.runs[0].state == PENDING && end.db.runs[0].attempt == 2
  {
    var lost := ReportIsLost();
    AlwaysOk(SETTINGS, "w", WORKERS, OFFERED_ONCE + SUCCEEDED + RATE_LIMITED);
    ExecSnoc(SETTINGS, "w", Boot(WORKERS), OFFERED_ONCE + SUCCEEDED + RATE_LIMITED, Greet(1, {}, 1));
    var hello := SayHello("w", 1, {}, InFlightIds(lost.agent), 1);
    GreetIsHello(SETTINGS, "w", lost, hello);
    ForgottenRunIsRetried(SETTINGS, "w", lost, hello, 0);
  }
}
