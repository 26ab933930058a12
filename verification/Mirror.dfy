/** The JobResult's copies of a run's columns, the stamps that a retry leaves behind, and how long a claim and a
    touch last. */
module Mirror {
  import opened Wrappers
  import opened Runs
  import opened Dispatch
  import opened Invariant
  import opened History
  import opened RowMoves
  import opened ReapPass
  import opened Guarantees

  ghost predicate Mirrored(r: Run) {
    && (Settled(r.state) ==> r.result.dateDone == r.finishedAt)
    && (r.worker.Some? ==> r.result.worker == r.worker)
    && (r.state == RUNNING ==> r.startedAt.Some? && r.result.dateStarted.Some?)
  }

  lemma MoveKeepsMirror(r: Run, m: Move)
    requires CanMove(r, m) && Mirrored(r)
    ensures Guarded(r, m) && Mirrored(Moved(r, m))
  {
  }

  lemma NewRowMirrored(s: Settings, db: Db, step: Step, i: RunId)
    requires Inv(db) && |db.runs| <= i < |Next(s, db, step).runs|
    ensures Mirrored(Next(s, db, step).runs[i])
  {
    if !step.SubmitShares? && !step.SubmitRun? { SameLength(s, db, step); }
  }

  /** In every reachable state the JobResult names the run's worker, a settled run's JobResult was done when the run
      finished, and a RUNNING run and its JobResult have a start. */
  lemma {:induction false} EveryMirror(s: Settings, workers: map<WorkerId, Worker>, steps: seq<Step>, i: RunId)
    requires i < |Exec(s, Start(workers), steps).runs|
    ensures Mirrored(Exec(s, Start(workers), steps).runs[i])
  {
    if steps != [] {
      var front := steps[..|steps|-1];
      var before := Exec(s, Start(workers), front);
      AlwaysInv(s, workers, front);
      if i < |before.runs| {
        EveryMirror(s, workers, front, i);
        var m := RowMove(s, before, steps[|steps|-1], i);
        MoveKeepsMirror(before.runs[i], m);
      } else {
        NewRowMirrored(s, before, steps[|steps|-1], i);
      }
    }
  }

  lemma MoveKeepsStart(r: Run, m: Move)
    requires CanMove(r, m)
    ensures Guarded(r, m) && (r.startedAt.Some? ==> Moved(r, m).startedAt == r.startedAt)
  {
  }

  /** A run keeps its first start for ever: a retried run shows the start of the attempt that first ran. */
  lemma {:induction false} FirstStartStays(s: Settings, db: Db, steps: seq<Step>, i: RunId)
    requires Inv(db) && i < |db.runs| && db.runs[i].startedAt.Some?
    ensures i < |Exec(s, db, steps).runs| && Exec(s, db, steps).runs[i].startedAt == db.runs[i].startedAt
  {
    RowsStay(s, db, steps);
    if steps != [] {
      var front := steps[..|steps|-1];
      ExecKeeps(s, db, front);
      FirstStartStays(s, db, front, i);
      var m := RowMove(s, Exec(s, db, front), steps[|steps|-1], i);
      MoveKeepsStart(Exec(s, db, front).runs[i], m);
    }
  }

  // ---------------------------------------------------------------- how long things last

  /** A claimed run is with its worker for at least one lease period: no pass of the reaper within it touches
      the run. */
  lemma ClaimLastsALease(s: Settings, db: Db, w: WorkerId, at: Time, now: Time)
    requires Inv(db) && ClaimOne(db, s, w, at).1.Some? && now <= at + s.leaseSeconds
    ensures var i := ClaimOne(db, s, w, at).1.value; var d := ClaimOne(db, s, w, at).0;
      && i < |d.runs| && HeldBy(d.runs[i], w) && d.runs[i].claimedAt == Some(at)
      && i < |ReapExpired(d, now).runs| && ReapExpired(d, now).runs[i] == d.runs[i]
  {
    var i, d := ClaimOne(db, s, w, at).1.value, ClaimOne(db, s, w, at).0;
    ClaimKeeps(db, s, w, at);
    assert d.runs[i] == Claimed(db.runs[i], w, at + s.leaseSeconds, db.nextToken, at);
    ReapIsExact(d, now);
    NotYetExpired(d.runs[i], now);
  }

  /** A worker that was heard from is not taken for offline until its time to live, less the interval at which such
      news is recorded, has passed. */
  lemma TouchKeepsAlive(db: Db, s: Settings, w: WorkerId, at: Time, now: Time)
    requires w in db.workers && db.workers[w].enabled && now + s.touchInterval <= at + s.workerTtl
    ensures w in Touched(db, w, s, at).workers && WorkerStatusOf(Touched(db, w, s, at).workers[w], s, now) != Offline
  {
  }

  /** So a cancel reaches every worker that was heard from so recently: its run is flagged, not reaped. */
  lemma RecentWorkerIsTold(db: Db, s: Settings, w: WorkerId, i: RunId, at: Time, now: Time)
    requires Inv(db) && w in db.workers && db.workers[w].enabled && now + s.touchInterval <= at + s.workerTtl
    requires i < |db.runs| && HeldBy(db.runs[i], w)
    ensures CancelOne(Touched(db, w, s, at), s, i, now).1 == CancelSent(w)
  {
    TouchKeepsAlive(db, s, w, at, now);
    OwnedHasZone(db, w, i);
    if HasChild(db.runs, i) { ParentHasNoZone(db, i); }
  }
}
