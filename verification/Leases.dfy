/** Leases in the columns of the rows: what a pass of the reaper makes of each row, where a lease comes from, and why a
    run of which nothing is heard does not stay with its worker. */
module Leases {
  import opened Wrappers
  import opened Runs
  import opened Dispatch
  import opened Views
  import opened Invariant
  import opened History
  import opened RowMoves
  import opened ReapPass

  /** The run's zone lets runs wait, and the run is past the wait. */
  ghost predicate PastWait(r: Run, now: Time) {
    && r.zone.Some? && r.zone.value.failoverPolicy in {WaitForCapacity, FailOver}
    && now > r.queuedAt + r.zone.value.maxWaitSeconds
  }

  ghost predicate FailedToDispatch(r: Run, r': Run, now: Time) {
    r'.state == FAILED_DISPATCH && r'.finishedAt == Some(now) && r'.attempt == r.attempt && r'.token.None?
  }

  /** A run whose lease has lapsed is taken from its worker; a next attempt that has waited too long already fails. */
  ghost predicate TakenBack(r: Run, r': Run, now: Time) {
    if r.attempt <= r.definition.retryMax && PastWait(r, now)
    then && r'.state == FAILED_DISPATCH && r'.finishedAt == Some(now) && r'.attempt == r.attempt + 1
         && r'.worker.None? && r'.lease.None? && r'.token.None?
    else Dropped(r, r', now)
  }

  ghost predicate AfterPass(r: Run, r': Run, now: Time) {
    if Out(r) then r.lease.Some? && if r.lease.value < now then TakenBack(r, r', now) else r' == r
    else if r.state == PENDING && PastWait(r, now) then FailedToDispatch(r, r', now)
    else r' == r
  }

  lemma ReapedColumns(r: Run, now: Time)
    requires RowOk(r) && r.zone.Some?
    ensures AfterPass(r, Reaped(r, now), now)
  {
  }

  /** One pass, row by row: lapsed runs are taken back, waiting runs past their wait fail, and nothing else changes. */
  lemma ReapColumns(db: Db, now: Time, i: RunId)
    requires Inv(db) && i < |db.runs| && db.runs[i].zone.Some?
    ensures i < |ReapExpired(db, now).runs|
    ensures AfterPass(db.runs[i], ReapExpired(db, now).runs[i], now)
  {
    ReapIsExact(db, now);
    assert RowOk(db.runs[i]);
    ReapedColumns(db.runs[i], now);
  }

  /** After a pass no run is out on a lapsed lease, and no run waits past its wait. */
  lemma NothingLapsed(db: Db, now: Time, i: RunId)
    requires Inv(db) && i < |ReapExpired(db, now).runs|
    ensures var r := ReapExpired(db, now).runs[i];
      && (Out(r) && r.lease.Some? ==> r.lease.value >= now)
      && (r.state == PENDING ==> !PastWait(r, now))
  {
    ReapIsExact(db, now);
    assert RowOk(db.runs[i]);
    assert RowOk(ReapExpired(db, now).runs[i]);
    if db.runs[i].zone.Some? { ReapColumns(db, now, i); }
  }

  /** The tokens that go are those of the runs whose lease has lapsed. */
  lemma ReapTokens(db: Db, now: Time, t: TokenId)
    requires Inv(db) && t in db.tokens
    ensures db.tokens[t] < |db.runs| && db.runs[db.tokens[t]].lease.Some?
    ensures t in ReapExpired(db, now).tokens <==> db.runs[db.tokens[t]].lease.value >= now
  {
    ReapIsExact(db, now);
    assert RowOk(db.runs[db.tokens[t]]);
  }

  // ---------------------------------------------------------------- what a hello makes of each row

  lemma AbandonedColumns(r: Run, now: Time)
    requires RowOk(r) && Out(r)
    ensures Dropped(r, Abandoned(r, now), now)
  {
  }

  /** A hello, row by row: a run of the worker that it names stays as it is, on a lease from now; one that it does not
      name is taken from the worker; no other dispatched run changes. */
  lemma HelloColumns(s: Settings, db: Db, step: Step, i: RunId)
    requires Inv(db) && i < |db.runs| && db.runs[i].zone.Some? && step.SayHello? && step.w in db.workers
    ensures i < |Next(s, db, step).runs|
    ensures var r, r' := db.runs[i], Next(s, db, step).runs[i];
      if IsWith(db, i, step.w) && i in step.known then r' == r.(lease := Some(step.at + s.leaseSeconds))
      else if IsWith(db, i, step.w) then Dropped(r, r', step.at)
      else r' == r
  {
    var m := HelloMove(s, db, step, i);
    assert RowOk(db.runs[i]);
    if IsWith(db, i, step.w) { AbandonedColumns(db.runs[i], step.at); }
  }

  // ---------------------------------------------------------------- where a lease comes from

  /** In this step something is heard of run i: it is claimed, or its holder reports it or names it in a hello. */
  ghost predicate HearsOf(s: Settings, db: Db, step: Step, i: RunId) {
    || (step.ClaimNext? && ClaimOne(db, s, step.w, step.at).1 == Some(i))
    || (step.Status? && step.i == i && i < |db.runs| && Out(db.runs[i]) && db.runs[i].worker == Some(step.w))
    || (step.SayHello? && i in step.known && i < |db.runs| && Out(db.runs[i]) && db.runs[i].worker == Some(step.w))
  }

  lemma LeaseMove(r: Run, m: Move)
    requires CanMove(r, m)
    ensures Guarded(r, m) && (Out(Moved(r, m)) && !m.Claim? && !m.Renew? ==> Out(r) && Moved(r, m).lease == r.lease)
    ensures Moved(r, m).zone == r.zone && (m.Renew? ==> Out(r) && r.zone.Some?) && (m.Claim? ==> r.zone.Some?)
  {
  }

  lemma ClaimLease(s: Settings, db: Db, w: WorkerId, at: Time, i: RunId)
    requires ClaimOne(db, s, w, at).1 == Some(i)
    ensures i < |db.runs| == |ClaimOne(db, s, w, at).0.runs|
    ensures ClaimOne(db, s, w, at).0.runs[i].lease == Some(at + s.leaseSeconds)
  {
  }

  lemma StatusLease(s: Settings, db: Db, w: WorkerId, i: RunId, reported: RunState, at: Time)
    requires i < |db.runs| && Out(db.runs[i]) && db.runs[i].worker == Some(w)
    ensures |ReportStatus(db, s, w, i, reported, at).0.runs| == |db.runs|
    ensures ReportStatus(db, s, w, i, reported, at).0.runs[i].lease == Some(at + s.leaseSeconds)
  {
  }

  lemma NamedLease(s: Settings, db: Db, step: Step, i: RunId)
    requires Inv(db) && i < |db.runs| && step.SayHello? && i in step.known && HeldBy(db.runs[i], step.w)
    requires db.runs[i].zone.Some?
    ensures i < |Next(s, db, step).runs| && Next(s, db, step).runs[i].lease == Some(step.at + s.leaseSeconds)
  {
    var m := HelloMove(s, db, step, i);
  }

  lemma HeardLease(s: Settings, db: Db, step: Step, i: RunId)
    requires Inv(db) && HearsOf(s, db, step, i)
    ensures i < |Next(s, db, step).runs| && Next(s, db, step).runs[i].lease == Some(step.at + s.leaseSeconds)
  {
    match step
    case ClaimNext(w, at) => ClaimLease(s, db, w, at, i);
    case Status(w, _, reported, at) => StatusLease(s, db, w, i, reported, at);
    case SayHello(w, _, _, _, _) =>
      OwnedHasZone(db, w, i);
      NamedLease(s, db, step, i);
  }

  lemma UnheardLease(s: Settings, db: Db, step: Step, i: RunId)
    requires Inv(db) && i < |db.runs| && !HearsOf(s, db, step, i)
    ensures i < |Next(s, db, step).runs|
    ensures var r, r' := db.runs[i], Next(s, db, step).runs[i];
      Out(r') && r'.zone.Some? ==> Out(r) && r.zone.Some? && r'.lease == r.lease
  {
    var m := RowMove(s, db, step, i);
    LeaseMove(db.runs[i], m);
  }

  /** The row, when it is out, is so on a lease that ends one lease period after t. */
  ghost predicate LeasedFrom(s: Settings, r: Run, t: Time) {
    Out(r) && r.zone.Some? ==> r.lease == Some(t + s.leaseSeconds)
  }

  lemma HeardFrom(s: Settings, db: Db, step: Step, i: RunId)
    requires Inv(db) && HearsOf(s, db, step, i)
    ensures i < |Next(s, db, step).runs| && LeasedFrom(s, Next(s, db, step).runs[i], step.at)
  {
    HeardLease(s, db, step, i);
  }

  lemma UnheardFrom(s: Settings, db: Db, step: Step, i: RunId, t: Time)
    requires Inv(db) && !HearsOf(s, db, step, i) && i < |Next(s, db, step).runs|
    requires i < |db.runs| ==> LeasedFrom(s, db.runs[i], t)
    ensures LeasedFrom(s, Next(s, db, step).runs[i], t)
  {
    if i < |db.runs| {
      UnheardLease(s, db, step, i);
    } else if !step.SubmitShares? && !step.SubmitRun? {
      SameLength(s, db, step);
    }
  }

  /** When something was last heard of run i. */
  ghost function LastHeard(s: Settings, workers: map<WorkerId, Worker>, steps: seq<Step>, i: RunId): Time {
    if steps == [] then 0 else
    var front, last := steps[..|steps|-1], steps[|steps|-1];
    if HearsOf(s, Exec(s, Start(workers), front), last, i) then last.at else LastHeard(s, workers, front, i)
  }

  /** In every reachable state: the lease of a run that is out ends one lease period after something was last heard of
      the run. */
  lemma {:induction false} LeaseIs(s: Settings, workers: map<WorkerId, Worker>, steps: seq<Step>, i: RunId)
    requires i < |Exec(s, Start(workers), steps).runs|
    ensures LeasedFrom(s, Exec(s, Start(workers), steps).runs[i], LastHeard(s, workers, steps, i))
  {
    var front, last := steps[..|steps|-1], steps[|steps|-1];
    var before := Exec(s, Start(workers), front);
    AlwaysInv(s, workers, front);
    if HearsOf(s, before, last, i) {
      HeardFrom(s, before, last, i);
    } else {
      if i < |before.runs| { LeaseIs(s, workers, front, i); }
      UnheardFrom(s, before, last, i, LastHeard(s, workers, front, i));
    }
  }

  /** So a run that is out is taken back by a pass if and only if nothing was heard of it for longer than a lease
      period, whatever happened before and to whichever worker it went. */
  lemma QuietRunIsReaped(s: Settings, workers: map<WorkerId, Worker>, steps: seq<Step>, i: RunId, now: Time)
    requires var db := Exec(s, Start(workers), steps); i < |db.runs| && Out(db.runs[i]) && db.runs[i].zone.Some?
    ensures var db := Exec(s, Start(workers), steps); var d := ReapExpired(db, now);
      && i < |d.runs|
      && if now > LastHeard(s, workers, steps, i) + s.leaseSeconds then TakenBack(db.runs[i], d.runs[i], now)
         else d.runs[i] == db.runs[i]
  {
    LeaseIs(s, workers, steps, i);
    AlwaysInv(s, workers, steps);
    ReapColumns(Exec(s, Start(workers), steps), now, i);
  }
}
