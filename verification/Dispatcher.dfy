/** The server's dispatch operations in their own form: rows, tokens and worker records updated step by
    step. Each method is proved to do to the database what its transaction in module Dispatch says. */
module DispatchService {
  import opened Wrappers
  import opened Runs
  import D = Dispatch
  import opened Invariant
  import opened Sweeps
  import opened History
  import opened ReapPass
  import opened Cancellation
  import opened Zones
  import opened Submission

  class Dispatcher {
    const settings: D.Settings
    var runs: seq<Run>
    var workers: map<WorkerId, D.Worker>
    var tokens: map<TokenId, RunId>
    var nextToken: TokenId

    constructor (settings: D.Settings, workers: map<WorkerId, D.Worker>)
      ensures this.settings == settings
      ensures Snapshot() == D.Db([], workers, map[], 0)
    {
      this.settings := settings;
      this.runs := [];
      this.workers := workers;
      this.tokens := map[];
      this.nextToken := 0;
    }

    ghost function Snapshot(): D.Db
      reads this
    {
      D.Db(runs, workers, tokens, nextToken)
    }

    /** The database with row i replaced, as `save` leaves it. */
    ghost function Saved(i: RunId, r: Run): D.Db
      reads this
      requires i < |runs|
    {
      Snapshot().(runs := runs[i := r])
    }

    // -------------------------------------------------------------- one row

    method SyncJobResult(i: RunId, now: Time)
      requires i < |runs|
      modifies this`runs
      ensures Snapshot() == old(Saved(i, Synced(runs[i], now)))
    {
      var run := runs[i];
      var result := run.result.(status := StatusOf(run.state));
      if run.worker.Some? && result.worker != run.worker {
        result := result.(worker := run.worker);
      }
      if run.state == RUNNING && result.dateStarted.None? {
        result := result.(dateStarted := if run.startedAt.Some? then run.startedAt else Some(now));
      }
      var done := if run.finishedAt.Some? then run.finishedAt else Some(now);
      if run.state in {SUCCESS, FAILURE, CANCELLED, FAILED_DISPATCH} {
        result := result.(dateDone := done);
      }
      if run.state in {TERMINATED, ABANDONED} {
        result := result.(revocation := Some(if run.state == TERMINATED then RevokedTerminated else RevokedAbandoned));
        result := result.(dateDone := done);
      }
      runs := runs[i := run.(result := result)];
    }

    /** Raises, and writes nothing, exactly when the state machine forbids the transition. */
    method Transition(i: RunId, newState: RunState, now: Time) returns (raised: bool)
      requires i < |runs|
      modifies this`runs
      ensures raised <==> newState != old(runs[i].state) && !Legal(old(runs[i].state), newState)
      ensures Snapshot() == if raised then old(Snapshot()) else old(Saved(i, Transitioned(runs[i], newState, now)))
    {
      var run := runs[i];
      if newState == run.state {
        return false;
      }
      if !Legal(run.state, newState) {
        return true;
      }
      run := run.(state := newState, history := run.history + [newState]);
      if newState == CLAIMED && run.claimedAt.None? {
        run := run.(claimedAt := Some(now));
      }
      if newState == RUNNING && run.startedAt.None? {
        run := run.(startedAt := Some(now));
      }
      if Terminal(newState) || newState == ABANDONED {
        run := run.(finishedAt := Some(now));
      }
      runs := runs[i := run];
      SyncJobResult(i, now);
      return false;
    }

    method MintScopedToken(i: RunId)
      requires i < |runs|
      modifies this`runs, this`tokens, this`nextToken
      ensures Snapshot() == old(Snapshot()).(runs := old(runs)[i := old(runs)[i].(token := Some(old(nextToken)))],
                                             tokens := old(tokens)[old(nextToken) := i],
                                             nextToken := old(nextToken) + 1)
    {
      tokens := tokens[nextToken := i];
      runs := runs[i := runs[i].(token := Some(nextToken))];
      nextToken := nextToken + 1;
    }

    method DeleteScopedToken(i: RunId)
      requires i < |runs|
      modifies this`runs, this`tokens
      ensures Snapshot() == old(Snapshot()).(runs := old(runs)[i := old(runs)[i].(token := None)],
                                             tokens := D.Without(old(tokens), old(runs)[i].token))
    {
      var token := runs[i].token;
      if token.Some? {
        runs := runs[i := runs[i].(token := None)];
        tokens := tokens - {token.value};
      }
    }

    method RefreshParentState(i: RunId, now: Time)
      requires i < |runs| && (runs[i].parent.Some? ==> runs[i].parent.value < |runs|)
      modifies this`runs
      ensures Snapshot() == D.Refreshed(old(Snapshot()), i, now)
    {
      if runs[i].parent.None? { return; }
      var p := runs[i].parent.value;
      var allSettled, allSucceeded := true, true;
      for c := 0 to |runs|
        invariant allSettled == forall k :: 0 <= k < c && D.ChildOf(runs, k, p) ==> Settled(runs[k].state)
        invariant allSucceeded == forall k :: 0 <= k < c && D.ChildOf(runs, k, p) ==> runs[k].state == SUCCESS
      {
        if runs[c].parent == Some(p) {
          allSettled := allSettled && (Terminal(runs[c].state) || runs[c].state == ABANDONED);
          allSucceeded := allSucceeded && runs[c].state == SUCCESS;
        }
      }
      if !allSettled { return; }
      var verdict := if allSucceeded then SUCCESS else FAILURE;
      var parent := runs[p];
      if parent.state in {PENDING, RUNNING, CLAIMED, OFFERED} {
        parent := parent.(state := verdict, history := parent.history + [verdict]);
        runs := runs[p := parent.(finishedAt := Some(now))];
        SyncJobResult(p, now);
      }
    }

    method Requeue(i: RunId, now: Time)
      requires i < |runs|
      modifies this`runs
      ensures Snapshot() == old(Saved(i, Requeued(runs[i], now)))
    {
      var run := runs[i];
      run := run.(attempt := run.attempt + 1, worker := None, lease := None, finishedAt := None);
      runs := runs[i := run.(state := PENDING, history := run.history + [PENDING])];
      SyncJobResult(i, now);
    }

    method AbandonRun(i: RunId, now: Time)
      requires i < |runs| && Held(runs[i].state) && (runs[i].parent.Some? ==> runs[i].parent.value < |runs|)
      modifies this
      ensures Snapshot() == D.AbandonRun(old(Snapshot()), i, now)
    {
      ghost var before := Snapshot();
      var raised := Transition(i, ABANDONED, now);
      assert !raised;
      DeleteScopedToken(i);
      assert Snapshot() == AbandonedRow(before, i, now);
      AbandonInTwo(before, i, now);
      if runs[i].attempt < runs[i].definition.retryMax + 1 {
        Requeue(i, now);
      } else {
        RefreshParentState(i, now);
      }
    }

    /** Every reachable database is valid, and every operation below keeps it so. */
    ghost predicate Valid()
      reads this
    {
      Inv(Snapshot())
    }

    method Touch(w: WorkerId, now: Time)
      requires w in workers
      modifies this`workers
      ensures Snapshot() == D.Touched(old(Snapshot()), w, settings, now)
    {
      var worker := workers[w];
      if worker.lastSeen.None? || now - worker.lastSeen.value >= settings.touchInterval {
        workers := workers[w := worker.(lastSeen := Some(now))];
      }
    }

    // -------------------------------------------------------------- claiming

    method FreeCapacity(w: WorkerId) returns (free: nat)
      requires w in workers
      ensures free == D.FreeCapacity(Snapshot(), w)
    {
      var inFlight := 0;
      for k := 0 to |runs|
        invariant inFlight == D.InFlight(runs[..k], w)
      {
        assert runs[..k+1][..k] == runs[..k];
        if Held(runs[k].state) && runs[k].worker == Some(w) {
          inFlight := inFlight + 1;
        }
      }
      assert runs[..|runs|] == runs;
      free := if workers[w].capacity - inFlight > 0 then workers[w].capacity - inFlight else 0;
    }

    method SingletonHeld(i: RunId) returns (held: bool)
      requires i < |runs|
      ensures held == D.OtherHeld(runs, i)
    {
      for j := 0 to |runs|
        invariant forall k :: 0 <= k < j ==>
          !(k != i && Held(runs[k].state) && runs[k].definition == runs[i].definition)
      {
        if j != i && Held(runs[j].state) && runs[j].definition == runs[i].definition {
          return true;
        }
      }
      return false;
    }

    /** The scan of `_claim_one`: at most SCAN_LIMIT candidates, each singleton definition looked up once. */
    method PickRun(w: WorkerId) returns (pick: Option<RunId>)
      requires w in workers
      ensures pick == D.Pick(runs, workers[w], 0, 0)
    {
      var worker := workers[w];
      var heldSingletons: set<Definition> := {};
      var seen, k := 0, 0;
      while k < |runs| && seen < D.SCAN_LIMIT
        invariant 0 <= k <= |runs| && seen <= D.SCAN_LIMIT
        invariant D.Pick(runs, worker, 0, 0) == D.Pick(runs, worker, k, seen)
        invariant forall d :: d in heldSingletons ==>
                    exists j :: 0 <= j < |runs| && Held(runs[j].state) && runs[j].definition == d
      {
        var run := runs[k];
        if run.state == PENDING && run.zone == Some(worker.zone) {
          if run.definition.capabilities <= worker.capabilities {
            if !run.definition.singleton {
              return Some(k);
            }
            if run.definition !in heldSingletons {
              var held := SingletonHeld(k);
              if !held {
                return Some(k);
              }
              heldSingletons := heldSingletons + {run.definition};
            }
          }
          seen := seen + 1;
        }
        k := k + 1;
      }
      return None;
    }

    method ClaimPicked(w: WorkerId, i: RunId, now: Time)
      requires w in workers && i < |runs|
      modifies this
      ensures Snapshot() == D.ClaimAt(old(Snapshot()), settings, w, i, now)
    {
      ghost var before := Snapshot();
      var run := runs[i].(worker := Some(w), claimedAt := Some(now), lease := Some(now + settings.leaseSeconds));
      runs := runs[i := run.(state := CLAIMED, history := run.history + [CLAIMED])];
      SyncJobResult(i, now);
      MintScopedToken(i);
      assert Snapshot() == D.Apply(before, i, Claim(w, now + settings.leaseSeconds, before.nextToken, now));
      Touch(w, now);
    }

    method ClaimNextRun(w: WorkerId, now: Time) returns (offer: Option<RunId>)
      requires w in workers
      modifies this
      ensures (Snapshot(), offer) == D.ClaimOne(old(Snapshot()), settings, w, now)
    {
      offer := PickRun(w);
      if offer.Some? { ClaimPicked(w, offer.value, now); }
    }

    /** One round of the batch: `whole` is what the batch comes to, `offers` what it has come to so far. */
    method ClaimRound(w: WorkerId, now: Time, ghost whole: (D.Db, seq<RunId>), ghost offers: seq<RunId>,
                      ghost left: nat)
      returns (offer: Option<RunId>)
      requires w in workers && left > 0 && Continues(whole, offers, Snapshot(), settings, w, left, now)
      modifies this
      ensures w in workers
      ensures offer.None? ==> whole == (Snapshot(), offers)
      ensures offer.Some? ==> Continues(whole, offers + [offer.value], Snapshot(), settings, w, left - 1, now)
    {
      ghost var before := Snapshot();
      offer := ClaimNextRun(w, now);
      ContinueLoop(whole, offers, before, settings, w, left, Snapshot(), offer, now);
    }

    method ClaimRounds(w: WorkerId, budget: nat, now: Time, ghost whole: (D.Db, seq<RunId>))
      returns (offers: seq<RunId>)
      requires w in workers && Continues(whole, [], Snapshot(), settings, w, budget, now)
      modifies this
      ensures (Snapshot(), offers) == whole
    {
      offers := [];
      ghost var left := budget;
      while |offers| < budget
        invariant |offers| + left == budget && w in workers
        invariant Continues(whole, offers, Snapshot(), settings, w, left, now)
        decreases budget - |offers|
      {
        var offer := ClaimRound(w, now, whole, offers, left);
        if offer.None? { return; }
        offers := offers + [offer.value];
        left := left - 1;
      }
      LoopEnds(whole, offers, Snapshot(), settings, w, left, now);
    }

    method ClaimUpTo(w: WorkerId, budget: nat, now: Time) returns (offers: seq<RunId>)
      requires w in workers
      modifies this
      ensures (Snapshot(), offers) == D.ClaimLoop(old(Snapshot()), settings, w, budget, now)
    {
      ghost var whole := LoopStarts(Snapshot(), settings, w, budget, now);
      offers := ClaimRounds(w, budget, now, whole);
    }

    method ClaimRuns(w: WorkerId, maxOffers: int, now: Time) returns (offers: seq<RunId>)
      requires w in workers
      modifies this
      ensures (Snapshot(), offers) == D.ClaimRuns(old(Snapshot()), settings, w, maxOffers, now)
    {
      if !workers[w].enabled || workers[w].draining { return []; }
      var free := FreeCapacity(w);
      var budget := if maxOffers < free then maxOffers else free;
      offers := ClaimUpTo(w, if budget < 0 then 0 else budget, now);
    }

    // -------------------------------------------------------------- reports from the worker

    method ReportStatus(w: WorkerId, i: RunId, reported: RunState, now: Time) returns (reply: D.StatusReply)
      requires Valid() && w in workers
      modifies this
      ensures Valid() && (Snapshot(), reply) == D.ReportStatus(old(Snapshot()), settings, w, i, reported, now)
    {
      ghost var before := Snapshot();
      StatusKeeps(before, settings, w, i, reported, now);
      if i >= |runs| || runs[i].worker != Some(w) {
        return D.StatusRefused(D.UnknownRun);
      }
      if runs[i].state !in {CLAIMED, RUNNING} {
        return D.StatusRefused(if runs[i].state == ABANDONED then D.LeaseExpired else D.IllegalTransition);
      }
      if reported == RUNNING && runs[i].state == CLAIMED {
        var raised := Transition(i, RUNNING, now);
        assert !raised;
      }
      var until := now + settings.leaseSeconds;
      runs := runs[i := runs[i].(lease := Some(until))];
      RenewedToken(before, i, reported == RUNNING, until, now);
      assert Snapshot() == D.Apply(before, i, Renew(reported == RUNNING, until, now));
      reply := D.Renewal(until, runs[i].result.cancelRequested);
      Touch(w, now);
    }

    method CompleteRun(w: WorkerId, i: RunId, outcome: RunState, now: Time) returns (reply: D.CompleteReply)
      requires Valid() && w in workers
      modifies this
      ensures Valid() && (Snapshot(), reply) == D.CompleteRun(old(Snapshot()), settings, w, i, outcome, now)
    {
      ghost var before := Snapshot();
      CompleteKeeps(before, settings, w, i, outcome, now);
      if outcome !in {SUCCESS, FAILURE, TERMINATED} {
        return D.CompleteRefused(D.IllegalTransition);
      }
      if i >= |runs| || runs[i].worker != Some(w) {
        return D.CompleteRefused(D.UnknownRun);
      }
      if runs[i].state == outcome {
        return D.Accepted;
      }
      if runs[i].state !in {CLAIMED, RUNNING} {
        return D.CompleteRefused(D.IllegalTransition);
      }
      assert LinkOk(runs, i);
      FinishRun(i, outcome, now);
      Touch(w, now);
      return D.Accepted;
    }

    method EndRun(i: RunId, outcome: RunState, now: Time)
      requires i < |runs| && Held(runs[i].state) && outcome in {SUCCESS, FAILURE, TERMINATED}
      modifies this
      ensures Snapshot() == old(Snapshot()).(runs := old(runs)[i := Completed(old(runs)[i], outcome, now)],
                                             tokens := D.Without(old(tokens), old(runs)[i].token))
    {
      if runs[i].state == CLAIMED && outcome != TERMINATED {
        var raised := Transition(i, RUNNING, now);
        assert !raised;
      }
      var raised := Transition(i, outcome, now);
      assert !raised;
      DeleteScopedToken(i);
    }

    method FinishRun(i: RunId, outcome: RunState, now: Time)
      requires i < |runs| && Held(runs[i].state) && outcome in {SUCCESS, FAILURE, TERMINATED}
      requires runs[i].parent.Some? ==> runs[i].parent.value < |runs|
      modifies this
      ensures Snapshot() == D.Settle(old(Snapshot()), i, Finish(outcome, now), now) && workers == old(workers)
    {
      FinishedRow(Snapshot(), i, outcome, now);
      EndRun(i, outcome, now);
      RefreshParentState(i, now);
    }

    // -------------------------------------------------------------- hello

    /** Rows that satisfy a filter, in the table's own order: newest first. */
    method RowsWhere(due: (RunId, Run) -> bool) returns (ids: seq<RunId>)
      ensures ids == D.Newest(runs, |runs|, due)
    {
      ids := [];
      var i := |runs|;
      while i > 0
        invariant 0 <= i <= |runs|
        invariant ids + D.Newest(runs, i, due) == D.Newest(runs, |runs|, due)
      {
        i := i - 1;
        if due(i, runs[i]) {
          assert ids + ([i] + D.Newest(runs, i, due)) == ids + [i] + D.Newest(runs, i, due);
          ids := ids + [i];
        }
      }
      assert ids + [] == ids;
    }

    method AbandonEach(ids: seq<RunId>, now: Time)
      requires Valid() && Due(Snapshot(), ids, Abandon(now))
      modifies this
      ensures Valid() && Snapshot() == D.Sweep(old(Snapshot()), ids, Abandon(now), now)
    {
      ghost var before := Snapshot();
      for k := 0 to |ids|
        invariant Valid() && Snapshot() == D.Sweep(before, ids[..k], Abandon(now), now)
      {
        SweepNext(before, ids, k, Abandon(now), now);
        AbandonRun(ids[k], now);
      }
      assert ids[..|ids|] == ids;
    }

    /** One bulk update of the leases the worker still knows. */
    method ExtendLeases(w: WorkerId, known: set<RunId>, now: Time)
      modifies this`runs
      ensures Snapshot() == D.RenewKnown(old(Snapshot()), w, known, now + settings.leaseSeconds)
    {
      var until := now + settings.leaseSeconds;
      runs := seq(|runs|, i requires 0 <= i < |runs| reads this =>
        if runs[i].worker == Some(w) && runs[i].state in {CLAIMED, RUNNING} && i in known
        then runs[i].(lease := Some(until)) else runs[i]);
    }

    method ReconcileInFlight(w: WorkerId, known: set<RunId>, now: Time)
      requires Valid() && w in workers
      modifies this
      ensures Valid() && Snapshot() == D.Reconcile(old(Snapshot()), settings, w, known, now)
    {
      StaleDue(Snapshot(), w, known, now);
      ReconcileKeeps(Snapshot(), D.Reconcile(Snapshot(), settings, w, known, now), settings, w, known, now);
      var stale := RowsWhere((i, r) => D.HeldBy(r, w) && i !in known);
      AbandonEach(stale, now);
      ExtendLeases(w, known, now);
    }

    method HandleWorkerHello(w: WorkerId, capacity: int, capabilities: set<string>, inFlight: set<RunId>, now: Time)
      requires Valid() && w in workers
      modifies this
      ensures Valid() && Snapshot() == D.Hello(old(Snapshot()), settings, w, capacity, capabilities, inFlight, now)
    {
      IntroducedKeeps(Snapshot(), settings, w, capacity, capabilities, now);
      Introduce(w, capacity, capabilities, now);
      ReconcileInFlight(w, inFlight, now);
    }

    method Introduce(w: WorkerId, capacity: int, capabilities: set<string>, now: Time)
      requires w in workers
      modifies this`workers
      ensures Snapshot() == D.Introduced(old(Snapshot()), settings, w, capacity, capabilities, now)
    {
      ghost var before := workers;
      if workers[w].capabilities != capabilities {
        workers := workers[w := workers[w].(capabilities := capabilities)];
      }
      if workers[w].capacity != capacity {
        workers := workers[w := workers[w].(capacity := capacity)];
      }
      assert workers == before[w := before[w].(capacity := capacity, capabilities := capabilities)];
      Touch(w, now);
    }

    // -------------------------------------------------------------- the reaper

    method FailDispatch(i: RunId, now: Time)
      requires i < |runs| && runs[i].state == PENDING && (runs[i].parent.Some? ==> runs[i].parent.value < |runs|)
      requires runs[i].token.None?
      modifies this`runs
      ensures Snapshot() == D.Settle(old(Snapshot()), i, Fail(now), now)
    {
      ghost var before := Snapshot();
      var run := runs[i];
      runs := runs[i := run.(state := FAILED_DISPATCH, history := run.history + [FAILED_DISPATCH],
                             finishedAt := Some(now))];
      SyncJobResult(i, now);
      assert Snapshot() == D.Apply(before, i, Fail(now));
      RefreshParentState(i, now);
    }

    method ReapLeases(now: Time)
      requires Valid()
      modifies this
      ensures Valid() && Snapshot() == D.ReapLeases(old(Snapshot()), now)
    {
      ghost var before := Snapshot();
      LeasesReaped(before, now);
      var ids := RowsWhere((i, r) => D.Expired(r, now));
      for k := 0 to |ids|
        invariant Valid() && Snapshot() == D.Sweep(before, ids[..k], Abandon(now), now)
      {
        SweepNext(before, ids, k, Abandon(now), now);
        if runs[ids[k]].state in {CLAIMED, RUNNING} {
          AbandonRun(ids[k], now);
        }
      }
      assert ids[..|ids|] == ids;
    }

    method ReapWaitTimeouts(now: Time)
      requires Valid()
      modifies this
      ensures Valid() && Snapshot() == D.ReapWaits(old(Snapshot()), now)
    {
      ghost var before := Snapshot();
      WaitsReaped(before, now);
      var ids := RowsWhere((i, r) => D.Overdue(r, now));
      for k := 0 to |ids|
        invariant Valid() && Snapshot() == D.Sweep(before, ids[..k], Fail(now), now)
      {
        SweepNext(before, ids, k, Fail(now), now);
        if runs[ids[k]].state == PENDING {
          FailDispatch(ids[k], now);
        }
      }
      assert ids[..|ids|] == ids;
    }

    method ReapExpired(now: Time)
      requires Valid()
      modifies this
      ensures Valid() && Snapshot() == D.ReapExpired(old(Snapshot()), now)
    {
      ReapLeases(now);
      ReapWaitTimeouts(now);
    }

    // -------------------------------------------------------------- cancelling

    method HasChildren(p: RunId) returns (found: bool)
      ensures found == D.HasChild(runs, p)
    {
      for c := 0 to |runs|
        invariant forall k :: 0 <= k < c ==> !D.ChildOf(runs, k, p)
      {
        if runs[c].parent == Some(p) {
          assert D.ChildOf(runs, c, p);
          return true;
        }
      }
      return false;
    }

    method TerminateParent(p: RunId, now: Time)
      requires p < |runs|
      modifies this`runs, this`tokens
      ensures Snapshot() == D.Apply(old(Snapshot()), p, Close(TERMINATED, now))
    {
      var run := runs[p];
      runs := runs[p := run.(state := TERMINATED, history := run.history + [TERMINATED], finishedAt := Some(now))];
      DeleteScopedToken(p);
      SyncJobResult(p, now);
    }

    method WithdrawRun(i: RunId, now: Time)
      requires i < |runs| && runs[i].state in {PENDING, OFFERED}
      requires (runs[i].parent.Some? ==> runs[i].parent.value < |runs|)
      modifies this`runs, this`tokens
      ensures Snapshot() == D.Settle(old(Snapshot()), i, Withdraw(now), now)
    {
      ghost var before := Snapshot();
      var raised := Transition(i, CANCELLED, now);
      assert !raised;
      DeleteScopedToken(i);
      assert Snapshot() == D.Apply(before, i, Withdraw(now));
      RefreshParentState(i, now);
    }

    /** The transaction of a cancel. */
    method CancelRow(i: RunId, now: Time) returns (outcome: D.CancelOutcome)
      requires Valid() && i < |runs|
      modifies this
      ensures Valid() && (Snapshot(), outcome) == D.CancelOne(old(Snapshot()), settings, i, now)
    {
      CancelKeeps(Snapshot(), settings, i, now);
      assert LinkOk(runs, i);
      var state := runs[i].state;
      if Terminal(state) || state == ABANDONED {
        return D.AlreadyOver(state);
      }
      var isParent := HasChildren(i);
      if isParent {
        TerminateParent(i, now);
        return D.ParentCancelled;
      }
      if state in {PENDING, OFFERED} {
        WithdrawRun(i, now);
        return D.CancelledBeforeClaim;
      }
      var worker := runs[i].worker;
      if worker.None? || worker.value !in workers
         || D.WorkerStatusOf(workers[worker.value], settings, now) == D.Offline
      {
        AbandonRun(i, now);
        return D.WorkerOffline;
      }
      FlaggedToken(Snapshot(), i);
      runs := runs[i := runs[i].(result := runs[i].result.(cancelRequested := true))];
      return D.CancelSent(worker.value);
    }

    /** A cancel, with the cancels of the children that are still open; each is a cancel of its own, and
        ends there because no child is itself a parent. */
    method CancelRun(i: RunId, now: Time) returns (outcome: D.CancelOutcome)
      requires Valid() && i < |runs|
      modifies this
      ensures Valid() && (Snapshot(), outcome) == D.CancelRun(old(Snapshot()), settings, i, now)
      decreases |runs| - i
    {
      ghost var before := Snapshot();
      var children := RowsWhere((c, r: Run) => r.parent == Some(i) && !Settled(r.state));
      outcome := CancelRow(i, now);
      if !outcome.ParentCancelled? { return; }
      ghost var closed := Snapshot();
      assert Inv(closed) && closed.runs[i].state == TERMINATED && OpenOf(closed.runs, i, children) by {
        ClosedParent(before, i, settings, now);
      }
      for k := 0 to |children|
        invariant Valid() && |runs| == |before.runs|
        invariant Snapshot() == D.CancelAll(closed, settings, children[..k], now)
      {
        LeafCancel(closed, i, children, k, settings, now);
        var _ := CancelRun(children[k], now);
      }
      assert children[..|children|] == children;
    }

    // -------------------------------------------------------------- submission

    method FailSubmission(i: RunId, now: Time)
      requires i < |runs|
      modifies this`runs
      ensures Snapshot() == old(Saved(i, DispatchFailed(runs[i], now)))
    {
      var run := runs[i];
      runs := runs[i := run.(state := FAILED_DISPATCH, history := run.history + [FAILED_DISPATCH],
                             finishedAt := Some(now))];
      SyncJobResult(i, now);
    }

    /** None stands for the error raised when the definition is disabled; `devices` is None when the input
        field does not name devices that exist. */
    method SubmitRun(d: Definition, rows: seq<ZoneRow>, devices: Option<seq<Device>>, now: Time)
      returns (run: Option<RunId>)
      requires Valid() && NamesUnique(ZonesIn(rows)) && Ordered(ZonesIn(rows))
      modifies this
      ensures Valid()
      ensures run == if d.enabled then Some(old(|runs|)) else None
      ensures Snapshot() == Submitted(old(Snapshot()), settings, d, rows, devices, now)
    {
      if !d.enabled {
        return None;
      }
      SubmittedKeeps(Snapshot(), settings, d, rows, devices, now);
      run := Some(|runs|);
      runs := runs + [D.NewRun(d, None, None, [], now)];
      assert runs[..|runs|-1] == old(runs);
      if d.zonePolicy in {PerDevice, FanOut} {
        SubmitFanout(|runs| - 1, rows, devices, now);
      } else {
        SubmitSingle(|runs| - 1, rows, now);
      }
    }

    method SubmitSingle(i: RunId, rows: seq<ZoneRow>, now: Time)
      requires i == |runs| - 1 && runs[i] == D.NewRun(runs[i].definition, None, None, [], now)
      requires NamesUnique(ZonesIn(rows)) && Ordered(ZonesIn(rows))
      modifies this`runs
      ensures var before := old(Snapshot()).(runs := old(runs)[..i]);
        var d := old(runs[i].definition);
        Snapshot() == D.Submit(before, d, Placed(before, settings, d, ZonesIn(rows), now), now)
    {
      ghost var before := Snapshot().(runs := runs[..i]);
      assert runs == runs[..i] + [runs[i]];
      UnheldRowKeepsPlacement(before, runs[i], settings, runs[i].definition, ZonesIn(rows), now);
      var db := D.Db(runs, workers, tokens, nextToken);
      var zone := ResolveSubmissionZone(db, settings, runs[i].definition, ZonesIn(rows), now);
      if zone.None? {
        FailSubmission(i, now);
      } else {
        runs := runs[i := runs[i].(zone := zone)];
      }
    }

    method SubmitFanout(p: RunId, rows: seq<ZoneRow>, devices: Option<seq<Device>>, now: Time)
      requires p == |runs| - 1 && runs[p] == D.NewRun(runs[p].definition, None, None, [], now)
      modifies this`runs
      ensures var before := old(Snapshot()).(runs := old(runs)[..p]);
        var d := old(runs[p].definition);
        Snapshot() == D.SubmitFanOut(before, d, FanOutShares(d, rows, devices), now)
    {
      ghost var earlier := runs[..p];
      assert runs == earlier + [runs[p]];
      var d := runs[p].definition;
      if devices.None? || devices.value == [] {
        FailSubmission(p, now);
        return;
      }
      var shares := SharesFor(d, rows, devices.value);
      if shares == [] {
        FailSubmission(p, now);
        return;
      }
      CreateChildren(d, p, shares, now);
      OpenParent(p, d, now);
      assert runs == earlier + [D.OpenedParent(d, now)] + D.Children(d, p, shares, now);
    }

    method OpenParent(p: RunId, d: Definition, now: Time)
      requires p < |runs| && runs[p] == D.NewRun(d, None, None, [], now)
      modifies this`runs
      ensures runs == old(runs)[p := D.OpenedParent(d, now)]
    {
      var parent := runs[p];
      runs := runs[p := parent.(state := RUNNING, history := parent.history + [RUNNING], startedAt := Some(now))];
      SyncJobResult(p, now);
    }

    method CreateChildren(d: Definition, p: RunId, shares: seq<D.Share>, now: Time)
      modifies this`runs
      ensures runs == old(runs) + D.Children(d, p, shares, now)
    {
      assert runs == runs + D.Children(d, p, shares, now)[..0];
      for k := 0 to |shares|
        invariant runs == old(runs) + D.Children(d, p, shares, now)[..k]
      {
        runs := runs + [D.NewRun(d, Some(p), Some(shares[k].zone), shares[k].devices, now)];
      }
    }
  }

  function ZonesIn(rows: seq<ZoneRow>): (zones: seq<Zone>)
    ensures |zones| == |rows|
  {
    seq(|rows|, k requires 0 <= k < |rows| => rows[k].zone)
  }

  function FanOutShares(d: Definition, rows: seq<ZoneRow>, devices: Option<seq<Device>>): seq<D.Share> {
    if devices.None? then [] else SharesOf(d, rows, devices.value)
  }

  /** The database after `submit_run`. */
  function Submitted(db: D.Db, s: D.Settings, d: Definition, rows: seq<ZoneRow>, devices: Option<seq<Device>>,
                     now: Time): D.Db {
    if !d.enabled then db
    else if d.zonePolicy in {PerDevice, FanOut} then D.SubmitFanOut(db, d, FanOutShares(d, rows, devices), now)
    else D.Submit(db, d, Placed(db, s, d, ZonesIn(rows), now), now)
  }

  function Requeued(r: Run, now: Time): Run {
    Synced(Wrote(r.(attempt := r.attempt + 1, worker := None, lease := None, finishedAt := None), PENDING), now)
  }

  /** The run is ABANDONED and its token gone; the retry policy has not been applied yet. */
  ghost function AbandonedRow(db: D.Db, i: RunId, now: Time): (mid: D.Db)
    requires i < |db.runs| && Held(db.runs[i].state)
    ensures |mid.runs| == |db.runs|
  {
    db.(runs := db.runs[i := Transitioned(db.runs[i], ABANDONED, now).(token := None)],
        tokens := D.Without(db.tokens, db.runs[i].token))
  }

  lemma AbandonInTwo(db: D.Db, i: RunId, now: Time)
    requires i < |db.runs| && Held(db.runs[i].state)
    ensures var mid := AbandonedRow(db, i, now);
      D.AbandonRun(db, i, now)
      == if RetriesLeft(mid.runs[i]) then mid.(runs := mid.runs[i := Requeued(mid.runs[i], now)])
                                  else D.Refreshed(mid, i, now)
  {
    var mid := AbandonedRow(db, i, now);
    var a := mid.runs[i];
    if RetriesLeft(a) {
      assert Abandoned(db.runs[i], now) == Requeued(a, now);
      assert db.runs[i := Requeued(a, now)] == mid.runs[i := Requeued(a, now)];
    } else {
      assert D.Apply(db, i, Abandon(now)) == mid;
    }
  }

  /** A renewal does not touch the run's token. */
  lemma RenewedToken(db: D.Db, i: RunId, toRunning: bool, until: Time, now: Time)
    requires Inv(db) && i < |db.runs|
    ensures Renewed(db.runs[i], toRunning, until, now).token == db.runs[i].token
  {
  }

  lemma FinishedRow(db: D.Db, i: RunId, outcome: RunState, now: Time)
    requires i < |db.runs| && Held(db.runs[i].state) && outcome in {SUCCESS, FAILURE, TERMINATED}
    ensures D.Apply(db, i, Finish(outcome, now))
         == db.(runs := db.runs[i := Completed(db.runs[i], outcome, now)],
                tokens := D.Without(db.tokens, db.runs[i].token))
    ensures D.Settle(db, i, Finish(outcome, now), now) == D.Refreshed(D.Apply(db, i, Finish(outcome, now)), i, now)
  {
  }

  /** What is left of a batch: the offers made so far, then the rest of the loop. */
  ghost predicate Continues(whole: (D.Db, seq<RunId>), offers: seq<RunId>, db: D.Db, s: D.Settings, w: WorkerId,
                            left: nat, now: Time)
  {
    var rest := D.ClaimLoop(db, s, w, left, now);
    whole.0 == rest.0 && whole.1 == offers + rest.1
  }

  lemma LoopStarts(db: D.Db, s: D.Settings, w: WorkerId, budget: nat, now: Time) returns (whole: (D.Db, seq<RunId>))
    ensures whole == D.ClaimLoop(db, s, w, budget, now) && Continues(whole, [], db, s, w, budget, now)
  {
    whole := D.ClaimLoop(db, s, w, budget, now);
  }

  lemma LoopEnds(whole: (D.Db, seq<RunId>), offers: seq<RunId>, db: D.Db, s: D.Settings, w: WorkerId, left: nat,
                 now: Time)
    requires left == 0 && Continues(whole, offers, db, s, w, left, now)
    ensures whole == (db, offers)
  {
    assert offers + [] == offers;
  }

  lemma LoopUnfolds(db: D.Db, s: D.Settings, w: WorkerId, left: nat, now: Time)
    requires left > 0
    ensures var (next, pick) := D.ClaimOne(db, s, w, now);
      && (pick.None? ==> D.ClaimLoop(db, s, w, left, now) == (db, []) && next == db)
      && (pick.Some? ==>
            D.ClaimLoop(db, s, w, left, now)
            == (D.ClaimLoop(next, s, w, left - 1, now).0, [pick.value] + D.ClaimLoop(next, s, w, left - 1, now).1))
  {
  }

  lemma ContinueLoop(whole: (D.Db, seq<RunId>), offers: seq<RunId>, db: D.Db, s: D.Settings, w: WorkerId,
                     left: nat, next: D.Db, pick: Option<RunId>, now: Time)
    requires Continues(whole, offers, db, s, w, left, now) && left > 0
    requires (next, pick) == D.ClaimOne(db, s, w, now)
    ensures pick.None? ==> whole == (db, offers) && next == db
    ensures pick.Some? ==> Continues(whole, offers + [pick.value], next, s, w, left - 1, now)
  {
    LoopUnfolds(db, s, w, left, now);
    if pick.Some? {
      var rest := D.ClaimLoop(next, s, w, left - 1, now).1;
      assert offers + ([pick.value] + rest) == offers + [pick.value] + rest;
    } else {
      assert offers + [] == offers;
    }
  }

  /** The rows of a sweep can be written one after the other: each is still as it was listed. */
  lemma SweepNext(db: D.Db, ids: seq<RunId>, k: nat, m: Move, now: Time)
    requires Inv(db) && Due(db, ids, m) && k < |ids|
    ensures var before := D.Sweep(db, ids[..k], m, now);
      && ids[k] < |before.runs| && D.StillDue(before.runs[ids[k]], m) && Guarded(before.runs[ids[k]], m)
      && before.runs[ids[k]] == db.runs[ids[k]]
      && D.Sweep(db, ids[..k+1], m, now) == D.Settle(before, ids[k], m, now)
      && Inv(D.Sweep(db, ids[..k+1], m, now))
      && (db.runs[ids[k]].parent.Some? ==> db.runs[ids[k]].parent.value < |before.runs|)
  {
    var upto, i := ids[..k+1], ids[k];
    assert upto == ids[..k] + [i] && upto[..|upto|-1] == ids[..k] && i in ids;
    assert Due(db, upto, m) by {
      assert forall j :: 0 <= j < |upto| ==> upto[j] == ids[j];
      assert forall j :: j in upto ==> j in ids;
    }
    assert LinkOk(db.runs, i);
    DuePrefix(db, ids[..k], i, m);
    SweepIs(db, ids[..k], m, now);
    SweepIs(db, upto, m, now);
    assert db.runs[i].zone.Some?;
  }

  lemma StaleDue(db: D.Db, w: WorkerId, known: set<RunId>, now: Time)
    requires Inv(db)
    ensures Due(db, D.Stale(db, w, known), Abandon(now))
  {
    StaleSwept(db, w, known, now);
  }

  lemma FlaggedToken(db: D.Db, i: RunId)
    requires Inv(db) && i < |db.runs| && Held(db.runs[i].state) && !D.HasChild(db.runs, i)
    ensures D.Apply(db, i, Flag) == db.(runs := db.runs[i := Flagged(db.runs[i])])
  {
    ChildlessHeld(db, i);
    assert RowOk(db.runs[i]);
  }

  lemma SubmittedKeeps(db: D.Db, s: D.Settings, d: Definition, rows: seq<ZoneRow>, devices: Option<seq<Device>>,
                       now: Time)
    requires Inv(db)
    ensures Inv(Submitted(db, s, d, rows, devices, now))
  {
    if d.zonePolicy in {PerDevice, FanOut} {
      SubmitFanOutKeeps(db, d, FanOutShares(d, rows, devices), now);
    } else {
      SubmitKeeps(db, d, Placed(db, s, d, ZonesIn(rows), now), now);
    }
  }

  /** The row that a submission creates first takes no worker's capacity. */
  lemma UnheldRowKeepsPlacement(db: D.Db, r: Run, s: D.Settings, d: Definition, zones: seq<Zone>, now: Time)
    requires r.worker.None?
    ensures Placed(db.(runs := db.runs + [r]), s, d, zones, now) == Placed(db, s, d, zones, now)
  {
    var db' := db.(runs := db.runs + [r]);
    forall z ensures HasCapacity(db', s, z, d.capabilities, now) == HasCapacity(db, s, z, d.capabilities, now) {
      UnheldRowKeepsCapacity(db, r, s, z, d.capabilities, now);
    }
    SameOpen(db, db', s, zones, d.capabilities, now);
    forall targets
      ensures FirstTaker(db', s, zones, targets, d.capabilities, now)
           == FirstTaker(db, s, zones, targets, d.capabilities, now)
    {
      SameTaker(db, db', s, zones, targets, d.capabilities, now);
    }
  }

  lemma UnheldRowKeepsCapacity(db: D.Db, r: Run, s: D.Settings, z: Zone, required: set<string>, now: Time)
    requires r.worker.None?
    ensures HasCapacity(db.(runs := db.runs + [r]), s, z, required, now) == HasCapacity(db, s, z, required, now)
  {
    var db' := db.(runs := db.runs + [r]);
    assert (db.runs + [r])[..|db.runs|] == db.runs;
    assert forall w :: w in db.workers ==>
      CanServe(db', s, w, z, required, now) == CanServe(db, s, w, z, required, now);
  }

  ghost predicate SameCapacity(db: D.Db, db': D.Db, s: D.Settings, required: set<string>, now: Time) {
    forall z :: HasCapacity(db', s, z, required, now) == HasCapacity(db, s, z, required, now)
  }

  lemma {:induction false} SameOpen(db: D.Db, db': D.Db, s: D.Settings, zones: seq<Zone>, required: set<string>,
                                    now: Time)
    requires SameCapacity(db, db', s, required, now)
    ensures Open(db', s, zones, required, now) == Open(db, s, zones, required, now)
  {
    if zones != [] { SameOpen(db, db', s, zones[1..], required, now); }
  }

  lemma {:induction false} SameTaker(db: D.Db, db': D.Db, s: D.Settings, zones: seq<Zone>,
                                     targets: seq<string>, required: set<string>, now: Time)
    requires SameCapacity(db, db', s, required, now)
    ensures FirstTaker(db', s, zones, targets, required, now) == FirstTaker(db, s, zones, targets, required, now)
  {
    if targets != [] { SameTaker(db, db', s, zones, targets[1..], required, now); }
  }
}
