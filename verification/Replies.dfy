/** What the server answers, in the columns of the rows: status reports, completions and cancels. */
module Replies {
  import opened Wrappers
  import opened Runs
  import opened Dispatch
  import opened Views
  import opened Invariant
  import opened History
  import opened RowMoves

  // ---------------------------------------------------------------- status reports

  /** A report that is accepted: the lease in the row and the one in the reply end one lease period later, the row is
      RUNNING if that was reported, and the reply asks for a cancel exactly when the row's JobResult does. */
  ghost predicate Renews(s: Settings, r: Run, r': Run, reported: RunState, reply: StatusReply, now: Time) {
    && reply == Renewal(now + s.leaseSeconds, r.result.cancelRequested)
    && r'.lease == Some(now + s.leaseSeconds) && r'.worker == r.worker && r'.token == r.token && r'.attempt == r.attempt
    && r'.state == (if reported == RUNNING then RUNNING else r.state)
    && (if r.state == CLAIMED && reported == RUNNING && r.startedAt.None? then r'.startedAt == Some(now)
        else r'.startedAt == r.startedAt)
    && r'.finishedAt == r.finishedAt
  }

  /** The reply to every status report: renewed for the worker that has the run out; unknown to any other worker; lease
      expired when the run was reaped for good; illegal when it is over otherwise. Refused reports change nothing. */
  lemma StatusReplies(s: Settings, db: Db, w: WorkerId, i: RunId, reported: RunState, now: Time)
    requires Inv(db)
    ensures var (d, reply) := ReportStatus(db, s, w, i, reported, now);
      && (reply.Renewal? <==> Names(db, i, w) && Out(db.runs[i]))
      && (reply == StatusRefused(UnknownRun) <==> !Names(db, i, w))
      && (reply == StatusRefused(LeaseExpired) <==> Names(db, i, w) && db.runs[i].state == ABANDONED)
      && (reply == StatusRefused(IllegalTransition) <==>
            Names(db, i, w) && db.runs[i].state in {SUCCESS, FAILURE, TERMINATED, CANCELLED, FAILED_DISPATCH})
      && (reply.StatusRefused? ==> d == db)
      && (reply.Renewal? ==>
            i < |d.runs| == |db.runs| && Renews(s, db.runs[i], d.runs[i], reported, reply, now)
            && forall k :: 0 <= k < |db.runs| && k != i ==> d.runs[k] == db.runs[k])
  {
    if Names(db, i, w) { assert RowOk(db.runs[i]); }
  }

  // ---------------------------------------------------------------- completions

  /** A completion that is accepted for the first time. */
  ghost predicate Completes(r: Run, r': Run, outcome: RunState, now: Time) {
    && r'.state == outcome && r'.finishedAt == Some(now) && r'.token.None? && r'.worker == r.worker
    && r'.attempt == r.attempt && r'.result.dateDone == Some(now)
    && (if r.state == CLAIMED && outcome != TERMINATED && r.startedAt.None? then r'.startedAt == Some(now)
        else r'.startedAt == r.startedAt)
  }

  /** The reply to every completion: only the three outcomes are taken, only from the run's worker, and only while
      it has the run out, or again for a run that already ended so. What is not taken for the first time changes
      nothing. */
  lemma CompleteReplies(s: Settings, db: Db, w: WorkerId, i: RunId, outcome: RunState, now: Time)
    requires Inv(db)
    ensures var (d, reply) := CompleteRun(db, s, w, i, outcome, now);
      var valid := outcome in {SUCCESS, FAILURE, TERMINATED};
      && (reply == Accepted <==> valid && Names(db, i, w) && (Out(db.runs[i]) || db.runs[i].state == outcome))
      && (reply == CompleteRefused(UnknownRun) <==> valid && !Names(db, i, w))
      && (reply == CompleteRefused(IllegalTransition) <==>
            !valid || (Names(db, i, w) && !Out(db.runs[i]) && db.runs[i].state != outcome))
      && (reply == Accepted && Out(db.runs[i]) ==> i < |d.runs| && Completes(db.runs[i], d.runs[i], outcome, now))
      && (reply != Accepted || !Out(db.runs[i]) ==> d == db)
  {
    if outcome in {SUCCESS, FAILURE, TERMINATED} && Names(db, i, w) && Out(db.runs[i]) {
      OwnedHasZone(db, w, i);
      var m := SettleMove(db, i, Finish(outcome, now), i, now);
      CompletedColumns(db.runs[i], outcome, now);
    }
  }

  lemma CompletedColumns(r: Run, outcome: RunState, now: Time)
    requires Out(r) && outcome in {SUCCESS, FAILURE, TERMINATED}
    ensures Completes(r, Completed(r, outcome, now), outcome, now)
  {
  }

  // ---------------------------------------------------------------- cancels

  /** Which answer a cancel gets. */
  lemma CancelReplies(s: Settings, db: Db, i: RunId, now: Time)
    requires Inv(db) && i < |db.runs|
    ensures var r, reply := db.runs[i], CancelOne(db, s, i, now).1;
      && (reply.AlreadyOver? <==> Over(r)) && (reply.AlreadyOver? ==> reply.state == r.state)
      && (reply == ParentCancelled <==> !Over(r) && IsParent(db, i))
      && (reply == CancelledBeforeClaim <==> !IsParent(db, i) && r.state == PENDING)
      && (reply.WorkerOffline? || reply.CancelSent? <==> !IsParent(db, i) && Out(r))
      && (reply.CancelSent? ==> r.worker == Some(reply.worker) && Alive(db, s, reply.worker, now))
      && (reply.WorkerOffline? ==> r.worker.Some? && !Alive(db, s, r.worker.value, now))
  {
    assert RowOk(db.runs[i]);
    assert HasChild(db.runs, i) <==> IsParent(db, i) by {
      if IsParent(db, i) {
        var c :| 0 <= c < |db.runs| && db.runs[c].parent == Some(i);
        assert ChildOf(db.runs, c, i);
      }
    }
    if Out(db.runs[i]) && !HasChild(db.runs, i) { ChildlessHeld(db, i); }
  }

  lemma SettledSelf(db: Db, i: RunId, m: Move, now: Time)
    requires Inv(db) && i < |db.runs| && CanMove(db.runs[i], m) && Settling(m)
    ensures i < |Settle(db, i, m, now).runs| && Settle(db, i, m, now).runs[i] == Moved(db.runs[i], m)
  {
    var self := SettleMove(db, i, m, i, now);
  }

  /** And what it makes of the row: only a cancel that is sent asks for anything. */
  ghost predicate CancelDoes(r: Run, r': Run, reply: CancelOutcome, now: Time) {
    && (!reply.CancelSent? ==> r'.result.cancelRequested == r.result.cancelRequested)
    && match reply
       case AlreadyOver(_) => r' == r
       case ParentCancelled => r'.state == TERMINATED && r'.finishedAt == Some(now) && r'.token.None?
       case CancelledBeforeClaim => r'.state == CANCELLED && r'.finishedAt == Some(now) && r'.worker.None?
       case WorkerOffline => Dropped(r, r', now)
       case CancelSent(_) => r' == r.(result := r.result.(cancelRequested := true))
  }

  lemma WithdrawDoes(db: Db, i: RunId, now: Time)
    requires Inv(db) && i < |db.runs| && db.runs[i].state == PENDING
    ensures i < |Settle(db, i, Withdraw(now), now).runs|
    ensures CancelDoes(db.runs[i], Settle(db, i, Withdraw(now), now).runs[i], CancelledBeforeClaim, now)
  {
    assert RowOk(db.runs[i]);
    SettledSelf(db, i, Withdraw(now), now);
  }

  lemma AbandonDoes(db: Db, i: RunId, now: Time)
    requires Inv(db) && i < |db.runs| && Out(db.runs[i]) && !HasChild(db.runs, i)
    ensures i < |AbandonRun(db, i, now).runs|
    ensures CancelDoes(db.runs[i], AbandonRun(db, i, now).runs[i], WorkerOffline, now)
  {
    assert RowOk(db.runs[i]);
    ChildlessHeld(db, i);
    SettledSelf(db, i, Abandon(now), now);
  }

  /** What each answer has done to the row of the run. */
  lemma CancelColumns(s: Settings, db: Db, i: RunId, now: Time)
    requires Inv(db) && i < |db.runs|
    ensures i < |CancelOne(db, s, i, now).0.runs|
    ensures CancelDoes(db.runs[i], CancelOne(db, s, i, now).0.runs[i], CancelOne(db, s, i, now).1, now)
  {
    assert RowOk(db.runs[i]);
    if !Settled(db.runs[i].state) && !HasChild(db.runs, i) {
      if db.runs[i].state == PENDING {
        WithdrawDoes(db, i, now);
      } else if !Reachable(db, s, db.runs[i].worker, now) {
        AbandonDoes(db, i, now);
      }
    }
  }

  // ---------------------------------------------------------------- who is asked to cancel

  /** This step is a cancel of run i that is sent to its worker. */
  ghost predicate Asks(s: Settings, db: Db, step: Step, i: RunId) {
    step.CancelRow? && step.i == i && i < |db.runs| && CancelOne(db, s, i, step.at).1.CancelSent?
  }

  lemma OtherMovesDoNotAsk(r: Run, m: Move)
    requires CanMove(r, m) && !m.Flag?
    ensures Guarded(r, m) && Moved(r, m).result.cancelRequested == r.result.cancelRequested
  {
  }

  lemma AskedNow(s: Settings, db: Db, step: Step, i: RunId)
    requires Inv(db) && Asks(s, db, step, i)
    ensures i < |Next(s, db, step).runs| && Next(s, db, step).runs[i].result.cancelRequested
  {
    CancelColumns(s, db, i, step.at);
  }

  lemma NotAskedNow(s: Settings, db: Db, step: Step, i: RunId)
    requires Inv(db) && !Asks(s, db, step, i) && i < |Next(s, db, step).runs|
    ensures Next(s, db, step).runs[i].result.cancelRequested <==> i < |db.runs| && db.runs[i].result.cancelRequested
  {
    if i >= |db.runs| {
      if !step.SubmitShares? && !step.SubmitRun? { SameLength(s, db, step); }
    } else if step.CancelRow? && step.i == i {
      CancelColumns(s, db, i, step.at);
    } else {
      var m := RowMove(s, db, step, i);
      OtherMovesDoNotAsk(db.runs[i], m);
    }
  }

  ghost predicate AskedAt(s: Settings, workers: map<WorkerId, Worker>, steps: seq<Step>, n: nat, i: RunId) {
    n < |steps| && Asks(s, Exec(s, Start(workers), steps[..n]), steps[n], i)
  }

  lemma AskedSnoc(s: Settings, workers: map<WorkerId, Worker>, front: seq<Step>, last: Step, i: RunId)
    ensures (exists n: nat :: AskedAt(s, workers, front + [last], n, i)) <==>
      (exists n: nat :: AskedAt(s, workers, front, n, i)) || Asks(s, Exec(s, Start(workers), front), last, i)
  {
    var steps := front + [last];
    assert steps[..|front|] == front;
    forall n: nat | n < |front| ensures AskedAt(s, workers, steps, n, i) == AskedAt(s, workers, front, n, i) {
      assert steps[..n] == front[..n];
    }
    if Asks(s, Exec(s, Start(workers), front), last, i) { assert AskedAt(s, workers, steps, |front|, i); }
  }

  /** In every reachable state a run's JobResult asks for a cancel if and only if one of its cancels was sent to a
      worker. */
  lemma {:induction false} AskedExactly(s: Settings, workers: map<WorkerId, Worker>, steps: seq<Step>, i: RunId)
    requires i < |Exec(s, Start(workers), steps).runs|
    ensures Exec(s, Start(workers), steps).runs[i].result.cancelRequested <==>
      exists n: nat :: AskedAt(s, workers, steps, n, i)
  {
    var front, last := steps[..|steps|-1], steps[|steps|-1];
    var before := Exec(s, Start(workers), front);
    assert steps == front + [last];
    AskedSnoc(s, workers, front, last, i);
    AlwaysInv(s, workers, front);
    if Asks(s, before, last, i) {
      AskedNow(s, before, last, i);
    } else {
      NotAskedNow(s, before, last, i);
      if i < |before.runs| { AskedExactly(s, workers, front, i); } else { NobodyAsked(s, workers, front, i); }
    }
  }

  lemma {:induction false} NobodyAsked(s: Settings, workers: map<WorkerId, Worker>, steps: seq<Step>, i: RunId)
    requires i >= |Exec(s, Start(workers), steps).runs|
    ensures forall n: nat :: !AskedAt(s, workers, steps, n, i)
  {
    if steps != [] {
      var front, last := steps[..|steps|-1], steps[|steps|-1];
      var before := Exec(s, Start(workers), front);
      assert steps == front + [last];
      AlwaysInv(s, workers, front);
      RowsOnlyGrow(s, before, last);
      NobodyAsked(s, workers, front, i);
      AskedSnoc(s, workers, front, last, i);
    }
  }

  lemma RowsOnlyGrow(s: Settings, db: Db, step: Step)
    requires Inv(db)
    ensures |Next(s, db, step).runs| >= |db.runs|
  {
    if |db.runs| > 0 { var m := RowMove(s, db, step, |db.runs| - 1); }
  }

  /** So an accepted status report is answered with the request to cancel if and only if a cancel of that run was sent
      to a worker before. */
  lemma ReplyAsksExactly(s: Settings, workers: map<WorkerId, Worker>, steps: seq<Step>, w: WorkerId, i: RunId,
                         reported: RunState, now: Time)
    ensures var reply := ReportStatus(Exec(s, Start(workers), steps), s, w, i, reported, now).1;
      reply.Renewal? ==> (reply.cancelRequested <==> exists n: nat :: AskedAt(s, workers, steps, n, i))
  {
    AlwaysInv(s, workers, steps);
    StatusReplies(s, Exec(s, Start(workers), steps), w, i, reported, now);
    if i < |Exec(s, Start(workers), steps).runs| { AskedExactly(s, workers, steps, i); }
  }
}
