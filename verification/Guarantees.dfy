/** What holds along every history, from any reachable state on. */
module Guarantees {
  import opened Wrappers
  import opened Runs
  import opened RunFacts
  import opened Dispatch
  import opened Invariant
  import opened History
  import opened RowMoves
  import opened ReapPass

  lemma {:induction false} ExecKeeps(s: Settings, db: Db, steps: seq<Step>)
    requires Inv(db)
    ensures Inv(Exec(s, db, steps))
  {
    if steps != [] {
      ExecKeeps(s, db, steps[..|steps|-1]);
      StepKeeps(s, Exec(s, db, steps[..|steps|-1]), steps[|steps|-1]);
    }
  }

  lemma {:induction false} RowsStay(s: Settings, db: Db, steps: seq<Step>)
    requires Inv(db)
    ensures |Exec(s, db, steps).runs| >= |db.runs|
  {
    if steps != [] {
      var before := Exec(s, db, steps[..|steps|-1]);
      ExecKeeps(s, db, steps[..|steps|-1]);
      RowsStay(s, db, steps[..|steps|-1]);
      if |before.runs| > 0 { var _ := RowMove(s, before, steps[|steps|-1], |before.runs| - 1); }
    }
  }

  // ---------------------------------------------------------------- what a row shows, in every state

  /** What the JobResult's status says about the state. */
  ghost predicate StatusShows(status: ResultStatus, state: RunState) {
    && (status == StatusPending <==> state in {PENDING, OFFERED, CLAIMED})
    && (status == StatusStarted <==> state == RUNNING)
    && (status == StatusSuccess <==> state == SUCCESS)
    && (status == StatusRevoked <==> state in {TERMINATED, ABANDONED})
    && (status == StatusFailure <==> state in {FAILURE, CANCELLED, FAILED_DISPATCH})
  }

  /** In every reachable state: a run has a live token if and only if a worker holds it, and no token belongs to two
      runs; a waiting run has neither worker nor lease; a run is finished exactly when it is settled; and its
      JobResult shows the image of its state. */
  lemma EveryRow(s: Settings, workers: map<WorkerId, Worker>, steps: seq<Step>, i: RunId)
    requires i < |Exec(s, Start(workers), steps).runs|
    ensures var db := Exec(s, Start(workers), steps); var r := db.runs[i];
      && (r.token.Some? <==> Held(r.state) && r.worker.Some?)
      && (r.token.Some? ==> r.token.value in db.tokens && db.tokens[r.token.value] == i)
      && (forall t :: t in db.tokens && db.tokens[t] == i ==> r.token == Some(t))
      && (r.state == PENDING ==> r.worker.None? && r.lease.None?)
      && (r.finishedAt.Some? <==> Settled(r.state))
      && StatusShows(r.result.status, r.state)
  {
    AlwaysInv(s, workers, steps);
    assert RowOk(Exec(s, Start(workers), steps).runs[i]);
  }

  /** No token is left over: each one belongs to a run that a worker holds. */
  lemma EveryToken(s: Settings, workers: map<WorkerId, Worker>, steps: seq<Step>, t: TokenId)
    requires t in Exec(s, Start(workers), steps).tokens
    ensures var db := Exec(s, Start(workers), steps);
      && db.tokens[t] < |db.runs| && db.runs[db.tokens[t]].token == Some(t)
      && Held(db.runs[db.tokens[t]].state) && db.runs[db.tokens[t]].worker.Some?
  {
    AlwaysInv(s, workers, steps);
    assert RowOk(Exec(s, Start(workers), steps).runs[Exec(s, Start(workers), steps).tokens[t]]);
  }

  // ---------------------------------------------------------------- lives end, and end for good

  /** A settled run never changes again: not its state, not its mirror, not any other column. */
  lemma {:induction false} SettledForever(s: Settings, db: Db, steps: seq<Step>, i: RunId)
    requires Inv(db) && i < |db.runs| && Settled(db.runs[i].state)
    ensures i < |Exec(s, db, steps).runs| && Exec(s, db, steps).runs[i] == db.runs[i]
  {
    RowsStay(s, db, steps);
    if steps != [] {
      var before := Exec(s, db, steps[..|steps|-1]);
      ExecKeeps(s, db, steps[..|steps|-1]);
      SettledForever(s, db, steps[..|steps|-1], i);
      var m := RowMove(s, before, steps[|steps|-1], i);
      MoveFollows(before.runs[i], m);
    }
  }

  /** Every change of state is recorded, and records are never rewritten. */
  lemma ChangeIsRecorded(r: Run, m: Move)
    requires CanMove(r, m)
    ensures Guarded(r, m) && r.history <= Moved(r, m).history
    ensures Moved(r, m).state != r.state ==> |r.history| < |Moved(r, m).history|
  {
  }

  /** In every reachable state each run is within its budget: at most retry_max + 1 claims and at most
      4 (retry_max + 1) - 1 changes of state, each of them lawful; only the opening of a fan-out parent
      is outside LEGAL_TRANSITIONS. */
  lemma BoundedLife(s: Settings, workers: map<WorkerId, Worker>, steps: seq<Step>, i: RunId)
    requires i < |Exec(s, Start(workers), steps).runs|
    ensures var r := Exec(s, Start(workers), steps).runs[i];
      && LegalHistory(r.history, r.zone.None?) && r.history[|r.history|-1] == r.state
      && |r.history| - 1 <= 4 * (r.definition.retryMax + 1) - 1
      && (r.zone.Some? ==> Count(r.history, CLAIMED) <= r.definition.retryMax + 1)
      && 1 <= r.attempt <= r.definition.retryMax + 1
  {
    AlwaysInv(s, workers, steps);
    assert RowOk(Exec(s, Start(workers), steps).runs[i]);
  }

  /** What a run may still go through: three changes of state for each attempt it has left. */
  function Budget(r: Run): int {
    3 * (r.definition.retryMax + 1 - r.attempt) + 3 - Rank(r.state)
  }

  /** Every move that changes a dispatched run's state uses up some of its budget; no move adds to it. */
  lemma MoveSpends(r: Run, m: Move)
    requires RowOk(r) && r.zone.Some? && CanMove(r, m)
    ensures Guarded(r, m)
    ensures 0 <= Budget(Moved(r, m)) <= Budget(r) - (if Moved(r, m).state != r.state then 1 else 0)
  {
  }

  predicate Changed(before: Db, after: Db, i: RunId) {
    i < |before.runs| && i < |after.runs| && after.runs[i].state != before.runs[i].state
  }

  /** How many of the steps changed the state of run i. */
  function Changes(s: Settings, db: Db, steps: seq<Step>, i: RunId): nat {
    if steps == [] then 0 else
    var front := steps[..|steps|-1];
    Changes(s, db, front, i) + (if Changed(Exec(s, db, front), Exec(s, db, steps), i) then 1 else 0)
  }

  /** A run changes state at most 3 (retry_max + 1) times in all its life. */
  lemma {:induction false} ChangesAreBounded(s: Settings, db: Db, steps: seq<Step>, i: RunId)
    requires Inv(db) && i < |db.runs| && db.runs[i].zone.Some?
    ensures i < |Exec(s, db, steps).runs| && Exec(s, db, steps).runs[i].zone.Some?
    ensures 0 <= Budget(Exec(s, db, steps).runs[i])
    ensures Changes(s, db, steps, i) + Budget(Exec(s, db, steps).runs[i]) <= Budget(db.runs[i])
    ensures Changes(s, db, steps, i) <= 3 * (db.runs[i].definition.retryMax + 1)
  {
    assert RowOk(db.runs[i]);
    RowsStay(s, db, steps);
    if steps != [] {
      var front := steps[..|steps|-1];
      var before := Exec(s, db, front);
      ChangesAreBounded(s, db, front, i);
      ExecKeeps(s, db, front);
      var m := RowMove(s, before, steps[|steps|-1], i);
      assert RowOk(before.runs[i]);
      MoveFollows(before.runs[i], m);
      MoveSpends(before.runs[i], m);
    }
  }

  // ---------------------------------------------------------------- fencing

  /** Worker w no longer speaks for run i. */
  ghost predicate Fenced(db: Db, w: WorkerId, i: RunId) {
    i < |db.runs| && (db.runs[i].worker == Some(w) ==> db.runs[i].state == ABANDONED)
  }

  /** Worker w does not claim run i again during these steps. */
  ghost predicate NotReclaimed(s: Settings, db: Db, steps: seq<Step>, w: WorkerId, i: RunId) {
    forall k :: 0 <= k < |steps| && steps[k].ClaimNext? && steps[k].w == w ==>
      ClaimOne(Exec(s, db, steps[..k]), s, w, steps[k].at).1 != Some(i)
  }

  /** Whatever takes a run from the worker that holds it, other than that worker's own completion,
      fences the worker: the reaper, a cancel, or a hello that does not name the run. */
  lemma LossFences(s: Settings, db: Db, step: Step, w: WorkerId, i: RunId)
    requires Inv(db) && i < |db.runs| && HeldBy(db.runs[i], w) && !step.Complete?
    ensures i < |Next(s, db, step).runs|
    ensures !HeldBy(Next(s, db, step).runs[i], w) ==> Fenced(Next(s, db, step), w, i)
  {
    var m := RowMove(s, db, step, i);
  }

  lemma {:induction false} FencedStays(s: Settings, db: Db, steps: seq<Step>, w: WorkerId, i: RunId)
    requires Inv(db) && Fenced(db, w, i) && NotReclaimed(s, db, steps, w, i)
    ensures Inv(Exec(s, db, steps)) && Fenced(Exec(s, db, steps), w, i)
  {
    ExecKeeps(s, db, steps);
    if steps != [] {
      var prefix, last := steps[..|steps|-1], steps[|steps|-1];
      assert forall k :: 0 <= k < |prefix| ==> steps[..k] == prefix[..k];
      FencedStays(s, db, prefix, w, i);
      var m := RowMove(s, Exec(s, db, prefix), last, i);
      MoveFollows(Exec(s, db, prefix).runs[i], m);
    }
  }

  /** The agent kills its container on exactly these refusals. */
  predicate KillsContainer(reply: StatusReply) {
    reply.StatusRefused? && reply.code in {UnknownRun, LeaseExpired}
  }

  /** Once a run has been taken from a worker, and until that worker claims it again, nothing the
      worker says about it is heard, and its next status report tells it to stop. */
  lemma StaleHolderIsFenced(s: Settings, db: Db, loss: Step, w: WorkerId, i: RunId, steps: seq<Step>,
                            reported: RunState, outcome: RunState, now: Time)
    requires Inv(db) && i < |db.runs| && HeldBy(db.runs[i], w) && !loss.Complete?
    requires i < |Next(s, db, loss).runs| && !HeldBy(Next(s, db, loss).runs[i], w)
    requires NotReclaimed(s, Next(s, db, loss), steps, w, i)
    ensures var later := Exec(s, Next(s, db, loss), steps);
      && ReportStatus(later, s, w, i, reported, now).0 == later
      && KillsContainer(ReportStatus(later, s, w, i, reported, now).1)
      && CompleteRun(later, s, w, i, outcome, now).0 == later
      && CompleteRun(later, s, w, i, outcome, now).1.CompleteRefused?
  {
    StepKeeps(s, db, loss);
    LossFences(s, db, loss, w, i);
    FencedStays(s, Next(s, db, loss), steps, w, i);
  }

  /** An accepted completion can be replayed at any later time: it is accepted again and changes nothing. */
  lemma CompletionIsIdempotent(s: Settings, db: Db, w: WorkerId, i: RunId, outcome: RunState, now: Time,
                               steps: seq<Step>, later: Time)
    requires Inv(db) && CompleteRun(db, s, w, i, outcome, now).1 == Accepted
    ensures var done := Exec(s, CompleteRun(db, s, w, i, outcome, now).0, steps);
      CompleteRun(done, s, w, i, outcome, later) == (done, Accepted)
  {
    CompleteKeeps(db, s, w, i, outcome, now);
    CompletedBy(s, db, w, i, outcome, now);
    SettledForever(s, CompleteRun(db, s, w, i, outcome, now).0, steps, i);
  }

  lemma CompletedBy(s: Settings, db: Db, w: WorkerId, i: RunId, outcome: RunState, now: Time)
    requires Inv(db) && CompleteRun(db, s, w, i, outcome, now).1 == Accepted
    ensures var d := CompleteRun(db, s, w, i, outcome, now).0;
      Owns(d, w, i) && d.runs[i].state == outcome && Settled(outcome)
  {
    if Held(db.runs[i].state) {
      OwnedHasZone(db, w, i);
      var _ := SettleMove(db, i, Finish(outcome, now), i, now);
    }
  }

  // ---------------------------------------------------------------- leases

  /** A holder that reports at least once per lease period is never reaped: a pass within the period after an accepted
      report leaves its run exactly as it is. */
  lemma ReportingKeepsTheRun(s: Settings, db: Db, w: WorkerId, i: RunId, reported: RunState, at: Time, now: Time)
    requires Inv(db) && ReportStatus(db, s, w, i, reported, at).1.Renewal? && now <= at + s.leaseSeconds
    ensures var d := ReportStatus(db, s, w, i, reported, at).0;
      i < |d.runs| && i < |ReapExpired(d, now).runs| && ReapExpired(d, now).runs[i] == d.runs[i]
  {
    var d := ReportStatus(db, s, w, i, reported, at).0;
    StatusKeeps(db, s, w, i, reported, at);
    OwnedHasZone(db, w, i);
    assert d.runs[i] == Renewed(db.runs[i], reported == RUNNING, at + s.leaseSeconds, at);
    ReapIsExact(d, now);
    NotYetExpired(d.runs[i], now);
  }

  lemma NotYetExpired(r: Run, now: Time)
    requires Held(r.state) && r.lease.Some? && now <= r.lease.value
    ensures Reaped(r, now) == r
  {
  }
}
