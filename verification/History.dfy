/** Histories: any operations, by any workers and users, in any order. */
module History {
  import opened Wrappers
  import opened Runs
  import opened Dispatch
  import opened Invariant
  import opened Sweeps

  /** One transaction. `Heard` is a request on which the worker was authenticated. `Reap` and `TimeOut` are single
      iterations of the reaper's loops, so that other operations may come between them; `CancelRow` is the transaction
      of a cancel, and the cancels of a parent's children are steps of their own. */
  datatype Step =
    | SubmitRun(d: Definition, zone: Option<Zone>, at: Time)
    | SubmitShares(d: Definition, shares: seq<Share>, at: Time)
    | ClaimNext(w: WorkerId, at: Time)
    | Status(w: WorkerId, i: RunId, reported: RunState, at: Time)
    | Complete(w: WorkerId, i: RunId, outcome: RunState, at: Time)
    | Reap(i: RunId, at: Time)
    | TimeOut(i: RunId, at: Time)
    | CancelRow(i: RunId, at: Time)
    | SayHello(w: WorkerId, capacity: int, capabilities: set<string>, known: set<RunId>, at: Time)
    | Heard(w: WorkerId, at: Time)
    | Enroll(w: WorkerId, worker: Worker, at: Time)
    | Switch(w: WorkerId, enabled: bool, draining: bool, at: Time)

  /** The reaper lists rows by their lease and re-reads only their state, so a row it abandons had a
      lease when it was listed but may have been renewed since. */
  function Next(s: Settings, db: Db, step: Step): Db {
    match step
    case SubmitRun(d, zone, at) => Submit(db, d, zone, at)
    case SubmitShares(d, shares, at) => SubmitFanOut(db, d, shares, at)
    case ClaimNext(w, at) => ClaimOne(db, s, w, at).0
    case Status(w, i, reported, at) => ReportStatus(db, s, w, i, reported, at).0
    case Complete(w, i, outcome, at) => CompleteRun(db, s, w, i, outcome, at).0
    case Reap(i, at) =>
      if i < |db.runs| && Held(db.runs[i].state) && db.runs[i].lease.Some? then AbandonRun(db, i, at) else db
    case TimeOut(i, at) => if i < |db.runs| && Overdue(db.runs[i], at) then Settle(db, i, Fail(at), at) else db
    case CancelRow(i, at) => if i < |db.runs| then CancelOne(db, s, i, at).0 else db
    case SayHello(w, capacity, capabilities, known, at) => Hello(db, s, w, capacity, capabilities, known, at)
    case Heard(w, at) => if w in db.workers && db.workers[w].enabled then Touched(db, w, s, at) else db
    case Enroll(w, worker, at) =>
      if w in db.workers then db else db.(workers := db.workers[w := worker.(lastSeen := Some(at))])
    case Switch(w, enabled, draining, at) =>
      if w !in db.workers then db
      else db.(workers := db.workers[w := db.workers[w].(enabled := enabled, draining := draining)])
  }

  // ---------------------------------------------------------------- every step keeps the invariant

  /** Worker records may change as they like, as long as none disappears or changes zone. */
  lemma WorkersKeep(db: Db, workers: map<WorkerId, Worker>)
    requires Inv(db)
    requires forall w :: w in db.workers ==> w in workers && workers[w].zone == db.workers[w].zone
    ensures Inv(db.(workers := workers))
  {
  }

  lemma TouchKeeps(db: Db, w: WorkerId, s: Settings, now: Time)
    requires Inv(db)
    ensures Inv(Touched(db, w, s, now)) && Touched(db, w, s, now).runs == db.runs
  {
  }

  /** Row k was created after the first n rows: nobody holds it and its parent is not among them. */
  ghost predicate NewRow(runs: seq<Run>, n: nat, k: RunId)
    requires k < |runs|
  {
    && RowOk(runs[k]) && LinkOk(runs, k) && Aggregates(runs, k)
    && runs[k].token.None? && runs[k].worker.None?
    && (runs[k].parent.Some? ==> runs[k].parent.value >= n)
  }

  lemma AppendKeeps(db: Db, runs': seq<Run>)
    requires Inv(db) && db.runs <= runs'
    requires forall k {:trigger NewRow(runs', |db.runs|, k)} :: |db.runs| <= k < |runs'| ==> NewRow(runs', |db.runs|, k)
    ensures Inv(db.(runs := runs'))
  {
    AppendKeepsTables(db, runs');
    forall k: RunId | k < |runs'|
      ensures RowOk(runs'[k]) && LinkOk(runs', k) && Aggregates(runs', k)
    {
      if k < |db.runs| {
        assert RowOk(db.runs[k]) && LinkOk(db.runs, k) && Aggregates(db.runs, k);
        forall j: RunId | |db.runs| <= j < |runs'|
          ensures runs'[j].parent != Some(k)
        {
          assert NewRow(runs', |db.runs|, j);
        }
        AppendAggregates(db.runs, runs', k);
      } else {
        assert NewRow(runs', |db.runs|, k);
      }
    }
  }

  lemma AppendKeepsTables(db: Db, runs': seq<Run>)
    requires TokensOk(db) && SingletonsOk(db.runs) && WorkersOk(db) && db.runs <= runs'
    requires forall k {:trigger NewRow(runs', |db.runs|, k)} :: |db.runs| <= k < |runs'| ==> NewRow(runs', |db.runs|, k)
    ensures TokensOk(db.(runs := runs')) && SingletonsOk(runs') && WorkersOk(db.(runs := runs'))
  {
    forall k: RunId | |db.runs| <= k < |runs'|
      ensures runs'[k].token.None? && runs'[k].worker.None?
    {
      assert NewRow(runs', |db.runs|, k);
    }
  }

  lemma AppendAggregates(runs: seq<Run>, runs': seq<Run>, p: RunId)
    requires p < |runs| && runs <= runs' && Aggregates(runs, p)
    requires forall j :: |runs| <= j < |runs'| ==> runs'[j].parent != Some(p)
    ensures Aggregates(runs', p)
  {
    assert forall c :: 0 <= c < |runs| ==> ChildOf(runs', c, p) == ChildOf(runs, c, p) && runs'[c] == runs[c];
    assert forall c :: |runs| <= c < |runs'| ==> !ChildOf(runs', c, p);
    if !AllSettled(runs, p) {
      var c :| 0 <= c < |runs| && ChildOf(runs, c, p) && !Settled(runs[c].state);
      assert ChildOf(runs', c, p);
    }
    if HasChild(runs, p) {
      var c :| 0 <= c < |runs| && ChildOf(runs, c, p);
      assert ChildOf(runs', c, p);
    }
    if !AllSucceeded(runs, p) {
      var c :| 0 <= c < |runs| && ChildOf(runs, c, p) && runs[c].state != SUCCESS;
      assert ChildOf(runs', c, p);
    }
  }

  lemma NewRunOk(d: Definition, parent: Option<RunId>, zone: Zone, devices: seq<DeviceId>, now: Time)
    ensures RowOk(NewRun(d, parent, Some(zone), devices, now))
  {
  }

  lemma FailedSubmitOk(d: Definition, now: Time)
    ensures RowOk(DispatchFailed(NewRun(d, None, None, [], now), now))
  {
  }

  /** The one write outside LEGAL_TRANSITIONS: a parent opens as RUNNING. */
  lemma OpenedParentOk(d: Definition, now: Time)
    ensures RowOk(OpenedParent(d, now))
  {
  }

  lemma SubmitKeeps(db: Db, d: Definition, zone: Option<Zone>, now: Time)
    requires Inv(db)
    ensures Inv(Submit(db, d, zone, now))
  {
    if zone.Some? { NewRunOk(d, None, zone.value, [], now); } else { FailedSubmitOk(d, now); }
    var runs' := Submit(db, d, zone, now).runs;
    var n := |db.runs|;
    assert NewRow(runs', n, n);
    AppendKeeps(db, runs');
  }

  lemma SubmitFanOutKeeps(db: Db, d: Definition, shares: seq<Share>, now: Time)
    requires Inv(db)
    ensures Inv(SubmitFanOut(db, d, shares, now))
  {
    if shares == [] {
      SubmitKeeps(db, d, None, now);
    } else {
      var n, runs' := |db.runs|, SubmitFanOut(db, d, shares, now).runs;
      forall k: RunId | n <= k < |runs'| ensures NewRow(runs', n, k) {
        NewFamily(db, d, shares, k, now);
      }
      AppendKeeps(db, runs');
    }
  }

  lemma NewFamily(db: Db, d: Definition, shares: seq<Share>, k: RunId, now: Time)
    requires shares != [] && |db.runs| <= k < |SubmitFanOut(db, d, shares, now).runs|
    ensures NewRow(SubmitFanOut(db, d, shares, now).runs, |db.runs|, k)
  {
    var n, runs' := |db.runs|, SubmitFanOut(db, d, shares, now).runs;
    if k == n {
      OpenedParentOk(d, now);
      assert ChildOf(runs', n + 1, n) && runs'[n + 1].state == PENDING;
    } else {
      var share := shares[k - n - 1];
      NewRunOk(d, Some(n), share.zone, share.devices, now);
      assert runs'[k] == NewRun(d, Some(n), Some(share.zone), share.devices, now);
    }
  }

  lemma ClaimMoves(db: Db, w: WorkerId, i: RunId, until: Time, now: Time)
    requires Inv(db) && w in db.workers && i < |db.runs|
    requires Candidate(db.runs[i], db.workers[w]) && (db.runs[i].definition.singleton ==> !OtherHeld(db.runs, i))
    ensures Inv(Apply(db, i, Claim(w, until, db.nextToken, now)))
  {
    MoveOn(db, i, Claim(w, until, db.nextToken, now));
  }

  lemma TouchedClaim(db: Db, s: Settings, w: WorkerId, i: RunId, now: Time)
    requires i < |db.runs| && Inv(Apply(db, i, Claim(w, now + s.leaseSeconds, db.nextToken, now)))
    ensures Inv(ClaimAt(db, s, w, i, now))
  {
    TouchKeeps(Apply(db, i, Claim(w, now + s.leaseSeconds, db.nextToken, now)), w, s, now);
  }

  lemma ClaimKeeps(db: Db, s: Settings, w: WorkerId, now: Time)
    requires Inv(db)
    ensures Inv(ClaimOne(db, s, w, now).0)
  {
    if w in db.workers {
      var pick := Pick(db.runs, db.workers[w], 0, 0);
      if pick.Some? {
        ClaimMoves(db, w, pick.value, now + s.leaseSeconds, now);
        TouchedClaim(db, s, w, pick.value, now);
      }
    }
  }

  /** A run with a worker has a zone: it is not a fan-out parent. */
  lemma OwnedHasZone(db: Db, w: WorkerId, i: RunId)
    requires Inv(db) && Owns(db, w, i)
    ensures db.runs[i].zone.Some?
  {
  }

  lemma StatusKeeps(db: Db, s: Settings, w: WorkerId, i: RunId, reported: RunState, now: Time)
    requires Inv(db)
    ensures Inv(ReportStatus(db, s, w, i, reported, now).0)
  {
    if Owns(db, w, i) && Held(db.runs[i].state) {
      OwnedHasZone(db, w, i);
      var m := Renew(reported == RUNNING, now + s.leaseSeconds, now);
      MoveOn(db, i, m);
      TouchKeeps(Apply(db, i, m), w, s, now);
    }
  }

  lemma CompleteKeeps(db: Db, s: Settings, w: WorkerId, i: RunId, outcome: RunState, now: Time)
    requires Inv(db)
    ensures Inv(CompleteRun(db, s, w, i, outcome, now).0)
  {
    if outcome in {SUCCESS, FAILURE, TERMINATED} && Owns(db, w, i) && Held(db.runs[i].state) {
      OwnedHasZone(db, w, i);
      SettleKeeps(db, i, Finish(outcome, now), now);
      TouchKeeps(Settle(db, i, Finish(outcome, now), now), w, s, now);
    }
  }

  /** A held row without children is with a worker; only parents run without one. */
  lemma ChildlessHeld(db: Db, i: RunId)
    requires Inv(db) && i < |db.runs| && Held(db.runs[i].state) && !HasChild(db.runs, i)
    ensures db.runs[i].zone.Some? && db.runs[i].worker.Some?
  {
    assert RowOk(db.runs[i]) && Aggregates(db.runs, i);
  }

  lemma ParentHasNoZone(db: Db, p: RunId)
    requires Inv(db) && p < |db.runs| && HasChild(db.runs, p)
    ensures db.runs[p].zone.None? && db.runs[p].state in {RUNNING, SUCCESS, FAILURE, TERMINATED}
  {
    var c :| 0 <= c < |db.runs| && ChildOf(db.runs, c, p);
    assert LinkOk(db.runs, c) && RowOk(db.runs[p]);
  }

  lemma CancelKeeps(db: Db, s: Settings, i: RunId, now: Time)
    requires Inv(db) && i < |db.runs|
    ensures Inv(CancelOne(db, s, i, now).0)
  {
    var r := db.runs[i];
    assert RowOk(r);
    if !Settled(r.state) {
      if HasChild(db.runs, i) {
        ParentHasNoZone(db, i);
        ApplyKeepsCore(db, i, Close(TERMINATED, now));
        CloseAggregates(db, i, Close(TERMINATED, now));
      } else if r.state == PENDING {
        SettleKeeps(db, i, Withdraw(now), now);
      } else {
        ChildlessHeld(db, i);
        if Reachable(db, s, r.worker, now) { MoveOn(db, i, Flag); } else { SettleKeeps(db, i, Abandon(now), now); }
      }
    }
  }

  lemma SameStates(runs: seq<Run>, runs': seq<Run>, p: RunId)
    requires |runs| == |runs'| && p < |runs| && Aggregates(runs, p)
    requires forall k :: 0 <= k < |runs| ==>
               runs'[k].parent == runs[k].parent && runs'[k].state == runs[k].state && runs'[k].zone == runs[k].zone
    ensures Aggregates(runs', p)
  {
    assert SameChildren(runs, runs', p);
    if HasChild(runs, p) {
      var c :| 0 <= c < |runs| && ChildOf(runs, c, p);
      assert ChildOf(runs', c, p);
    }
  }

  lemma ExtendedOk(r: Run, w: WorkerId, isKnown: bool, until: Time)
    requires RowOk(r)
    ensures var r' := Extended(r, w, isKnown, until);
      RowOk(r') && r' == r.(lease := r'.lease)
  {
  }

  lemma LeasesOnly(db: Db, runs': seq<Run>)
    requires Inv(db) && |runs'| == |db.runs| && RowsOk(runs')
    requires forall k :: 0 <= k < |runs'| ==> runs'[k] == db.runs[k].(lease := runs'[k].lease)
    ensures Inv(db.(runs := runs'))
  {
    forall k: RunId | k < |runs'|
      ensures LinkOk(runs', k) && Aggregates(runs', k)
    {
      assert LinkOk(db.runs, k) && Aggregates(db.runs, k);
      SameStates(db.runs, runs', k);
    }
  }

  lemma StaleListed(db: Db, w: WorkerId, known: set<RunId>)
    ensures forall i: RunId :: i in Stale(db, w, known) <==> i < |db.runs| && HeldBy(db.runs[i], w) && i !in known
    ensures Distinct(Stale(db, w, known))
  {
    NewestLists(db.runs, |db.runs|, (i, r) => HeldBy(r, w) && i !in known);
  }

  lemma StaleSwept(db: Db, w: WorkerId, known: set<RunId>, now: Time)
    requires Inv(db)
    ensures var ids := Stale(db, w, known);
      && Due(db, ids, Abandon(now)) && Inv(Sweep(db, ids, Abandon(now), now))
      && Swept(db, Sweep(db, ids, Abandon(now), now), ids, Targets(db.runs, Abandon(now)), now)
  {
    var ids := Stale(db, w, known);
    StaleListed(db, w, known);
    forall i | i in ids ensures i < |db.runs| && CanMove(db.runs[i], Abandon(now)) {
      assert RowOk(db.runs[i]);
    }
    SweepIs(db, ids, Abandon(now), now);
  }

  lemma IntroducedKeeps(db: Db, s: Settings, w: WorkerId, capacity: int, capabilities: set<string>, now: Time)
    requires Inv(db) && w in db.workers
    ensures Inv(Introduced(db, s, w, capacity, capabilities, now))
    ensures Introduced(db, s, w, capacity, capabilities, now).runs == db.runs
  {
  }

  /** d is what the bulk update of leases makes of the swept database. */
  ghost predicate LeasesExtended(swept: Db, d: Db, w: WorkerId, known: set<RunId>, until: Time) {
    && |d.runs| == |swept.runs|
    && (forall i {:trigger d.runs[i]} :: 0 <= i < |d.runs| ==>
          d.runs[i] == Extended(swept.runs[i], w, i in known, until))
    && d.workers == swept.workers && d.tokens == swept.tokens && d.nextToken == swept.nextToken
  }

  lemma ReconcileIs(db: Db, s: Settings, w: WorkerId, known: set<RunId>, now: Time)
    ensures LeasesExtended(Sweep(db, Stale(db, w, known), Abandon(now), now), Reconcile(db, s, w, known, now),
                           w, known, now + s.leaseSeconds)
  {
  }

  /** The first half of a hello's reconciliation: the runs that the worker did not name are abandoned. */
  lemma DroppingKeeps(db: Db, d: Db, s: Settings, w: WorkerId, known: set<RunId>, now: Time) returns (swept: Db)
    requires Inv(db) && d == Reconcile(db, s, w, known, now)
    ensures Inv(swept) && LeasesExtended(swept, d, w, known, now + s.leaseSeconds)
  {
    swept := Sweep(db, Stale(db, w, known), Abandon(now), now);
    StaleSwept(db, w, known, now);
    ReconcileIs(db, s, w, known, now);
  }

  /** The second half: the leases of the named runs are extended. */
  lemma RenewalKeeps(swept: Db, d: Db, w: WorkerId, known: set<RunId>, until: Time)
    requires Inv(swept) && LeasesExtended(swept, d, w, known, until)
    ensures Inv(d)
  {
    forall k: RunId | k < |d.runs|
      ensures RowOk(d.runs[k]) && d.runs[k] == swept.runs[k].(lease := d.runs[k].lease)
    {
      assert RowOk(swept.runs[k]);
      ExtendedOk(swept.runs[k], w, k in known, until);
    }
    LeasesOnly(swept, d.runs);
    assert d == swept.(runs := d.runs);
  }

  lemma ReconcileKeeps(db: Db, d: Db, s: Settings, w: WorkerId, known: set<RunId>, now: Time)
    requires Inv(db) && d == Reconcile(db, s, w, known, now)
    ensures Inv(d)
  {
    var swept := DroppingKeeps(db, d, s, w, known, now);
    RenewalKeeps(swept, d, w, known, now + s.leaseSeconds);
  }

  lemma HelloKeeps(db: Db, d: Db, s: Settings, w: WorkerId, capacity: int, capabilities: set<string>,
                   known: set<RunId>, now: Time)
    requires Inv(db) && d == Hello(db, s, w, capacity, capabilities, known, now)
    ensures Inv(d)
  {
    if w in db.workers {
      IntroducedKeeps(db, s, w, capacity, capabilities, now);
      ReconcileKeeps(Introduced(db, s, w, capacity, capabilities, now), d, s, w, known, now);
    }
  }

  lemma StepKeeps(s: Settings, db: Db, step: Step)
    requires Inv(db)
    ensures Inv(Next(s, db, step))
  {
    match step
    case SubmitRun(d, zone, at) => SubmitKeeps(db, d, zone, at);
    case SubmitShares(d, shares, at) => SubmitFanOutKeeps(db, d, shares, at);
    case ClaimNext(w, at) => ClaimKeeps(db, s, w, at);
    case Status(w, i, reported, at) => StatusKeeps(db, s, w, i, reported, at);
    case Complete(w, i, outcome, at) => CompleteKeeps(db, s, w, i, outcome, at);
    case Reap(i, at) =>
      if i < |db.runs| && Held(db.runs[i].state) && db.runs[i].lease.Some? {
        assert RowOk(db.runs[i]);
        SettleKeeps(db, i, Abandon(at), at);
      }
    case TimeOut(i, at) => if i < |db.runs| && Overdue(db.runs[i], at) { SettleKeeps(db, i, Fail(at), at); }
    case CancelRow(i, at) => if i < |db.runs| { CancelKeeps(db, s, i, at); }
    case SayHello(w, capacity, capabilities, known, at) =>
      HelloKeeps(db, Next(s, db, step), s, w, capacity, capabilities, known, at);
    case Heard(w, at) => TouchKeeps(db, w, s, at);
    case Enroll(w, worker, at) => WorkersKeep(db, Next(s, db, step).workers);
    case Switch(w, enabled, draining, at) => WorkersKeep(db, Next(s, db, step).workers);
  }

  // ---------------------------------------------------------------- whole histories

  /** Only a submission adds rows. */
  lemma SameLength(s: Settings, db: Db, step: Step)
    requires Inv(db) && !step.SubmitShares? && !step.SubmitRun?
    ensures |Next(s, db, step).runs| == |db.runs|
  {
  }

  function Start(workers: map<WorkerId, Worker>): Db {
    Db([], workers, map[], 0)
  }

  function Exec(s: Settings, db: Db, steps: seq<Step>): Db {
    if steps == [] then db else Next(s, Exec(s, db, steps[..|steps|-1]), steps[|steps|-1])
  }

  /** The invariant holds after any operations whatever, in any order. */
  lemma {:induction false} AlwaysInv(s: Settings, workers: map<WorkerId, Worker>, steps: seq<Step>)
    ensures Inv(Exec(s, Start(workers), steps))
  {
    if steps != [] {
      AlwaysInv(s, workers, steps[..|steps|-1]);
      StepKeeps(s, Exec(s, Start(workers), steps[..|steps|-1]), steps[|steps|-1]);
    }
  }
}
