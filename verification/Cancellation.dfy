/** What a cancel achieves, and what it does not. */
module Cancellation {
  import opened Wrappers
  import opened Runs
  import opened Dispatch
  import opened Invariant
  import opened History
  import opened RowMoves
  import opened Guarantees

  /** A run whose worker is gone is reaped by the cancel, and the retry policy then applies to it as to
      any reaped run: it is over exactly when its attempts are used up, and back in the queue otherwise. */
  lemma CancelOfflineEnds(db: Db, s: Settings, i: RunId, now: Time)
    requires Inv(db) && i < |db.runs| && CancelOne(db, s, i, now).1 == WorkerOffline
    ensures var r, r' := db.runs[i], CancelOne(db, s, i, now).0.runs[i];
      && (Settled(r'.state) <==> r.attempt == r.definition.retryMax + 1)
      && (!Settled(r'.state) <==> r'.state == PENDING && r'.attempt == r.attempt + 1)
  {
    assert RowOk(db.runs[i]);
    ChildlessHeld(db, i);
    var m := SettleMove(db, i, Abandon(now), i, now);
  }

  /** Every other cancel either ends the run at once or leaves a request its worker will see. */
  lemma CancelOtherwise(db: Db, s: Settings, i: RunId, now: Time)
    requires Inv(db) && i < |db.runs|
    ensures var (db', outcome) := CancelOne(db, s, i, now);
      i < |db'.runs| && (outcome != WorkerOffline ==>
        Settled(db'.runs[i].state) || (HeldBy(db'.runs[i], outcome.worker) && db'.runs[i].result.cancelRequested))
  {
    assert RowOk(db.runs[i]);
    if !Settled(db.runs[i].state) {
      if HasChild(db.runs, i) {
        ParentHasNoZone(db, i);
      } else if db.runs[i].state == PENDING {
        var m := SettleMove(db, i, Withdraw(now), i, now);
      } else {
        ChildlessHeld(db, i);
      }
    }
  }

  /** A request to cancel is never lost: not by a renewal, a reaping, a retry or a new claim. */
  lemma {:induction false} RequestSticks(s: Settings, db: Db, steps: seq<Step>, i: RunId)
    requires Inv(db) && i < |db.runs| && db.runs[i].result.cancelRequested
    ensures i < |Exec(s, db, steps).runs| && Exec(s, db, steps).runs[i].result.cancelRequested
  {
    RowsStay(s, db, steps);
    if steps != [] {
      var before := Exec(s, db, steps[..|steps|-1]);
      ExecKeeps(s, db, steps[..|steps|-1]);
      RequestSticks(s, db, steps[..|steps|-1], i);
      var m := RowMove(s, before, steps[|steps|-1], i);
      MoveKeepsRequest(before.runs[i], m);
    }
  }

  lemma MoveKeepsRequest(r: Run, m: Move)
    requires CanMove(r, m) && r.result.cancelRequested
    ensures Guarded(r, m) && Moved(r, m).result.cancelRequested
  {
  }

  /** So every later status report that is accepted, from whichever worker holds the run by then,
      carries the request. */
  lemma EveryHolderIsTold(s: Settings, db: Db, i: RunId, at: Time, steps: seq<Step>, w: WorkerId,
                          reported: RunState, now: Time)
    requires Inv(db) && i < |db.runs| && CancelOne(db, s, i, at).1.CancelSent?
    ensures var reply := ReportStatus(Exec(s, CancelOne(db, s, i, at).0, steps), s, w, i, reported, now).1;
      reply.Renewal? ==> reply.cancelRequested
  {
    CancelKeeps(db, s, i, at);
    RequestSticks(s, CancelOne(db, s, i, at).0, steps, i);
  }

  // ---------------------------------------------------------------- the mirror's revocation column

  lemma {:induction false} RevocationOfHistory(h: seq<RunState>)
    requires LegalHistory(h, false) && h[|h|-1] != TERMINATED
    ensures LastRevocation(h) == if Count(h, ABANDONED) > 0 then Some(RevokedAbandoned) else None
  {
    if |h| > 1 {
      var g := h[..|h|-1];
      assert h[|g|-1] == g[|g|-1] && h[|h|-1] == h[|g|-1+1];
      assert forall k :: 0 <= k < |g| ==> g[k] == h[k];
      RevocationOfHistory(g);
    } else {
      assert h[..0] == [];
    }
  }

  /** A run that succeeds is shown as revoked exactly when it was ever abandoned: nothing clears the
      revocation columns of its JobResult when it is queued again. */
  lemma SuccessLooksRevoked(db: Db, i: RunId)
    requires Inv(db) && i < |db.runs| && db.runs[i].zone.Some? && db.runs[i].state in {SUCCESS, FAILURE}
    ensures db.runs[i].result.revocation == if db.runs[i].attempt > 1 then Some(RevokedAbandoned) else None
  {
    assert RowOk(db.runs[i]);
    RevocationOfHistory(db.runs[i].history);
  }

  // ---------------------------------------------------------------- cancelling a parent

  /** What the cancel of its parent makes of a child. */
  ghost function CancelledChild(db: Db, s: Settings, r: Run, now: Time): Run {
    if Settled(r.state) then r
    else if Legal(r.state, CANCELLED) then Cancelled(r, now)
    else if !Held(r.state) || Reachable(db, s, r.worker, now) then Flagged(r)
    else Abandoned(r, now)
  }

  lemma ChildIsLeaf(db: Db, c: RunId, p: RunId)
    requires Inv(db) && ChildOf(db.runs, c, p)
    ensures p < c && !HasChild(db.runs, c)
  {
    assert LinkOk(db.runs, c);
    if HasChild(db.runs, c) { ParentHasNoZone(db, c); }
  }

  /** The parent is over already, so a child that settles does not touch it. */
  lemma CancelChild(db: Db, s: Settings, c: RunId, p: RunId, now: Time)
    requires Inv(db) && ChildOf(db.runs, c, p) && p < |db.runs| && db.runs[p].state == TERMINATED
    ensures var d := CancelOne(db, s, c, now).0;
      d.runs == db.runs[c := CancelledChild(db, s, db.runs[c], now)] && d.workers == db.workers
  {
    ChildIsLeaf(db, c, p);
    var r := db.runs[c];
    assert RowOk(r);
    if r.state == PENDING {
      SettlesAlone(db, c, p, Withdraw(now), now);
    } else if Held(r.state) {
      ChildlessHeld(db, c);
      if !Reachable(db, s, r.worker, now) { SettlesAlone(db, c, p, Abandon(now), now); }
    }
  }

  lemma SettlesAlone(db: Db, c: RunId, p: RunId, m: Move, now: Time)
    requires ChildOf(db.runs, c, p) && p < |db.runs| && p != c && db.runs[p].state == TERMINATED
    requires Guarded(db.runs[c], m) && !m.Claim? && Moved(db.runs[c], m).parent == Some(p)
    ensures Settle(db, c, m, now) == Apply(db, c, m)
  {
  }

  /** Open children of p, each listed once. */
  ghost predicate OpenOf(runs: seq<Run>, p: RunId, ids: seq<RunId>) {
    && (forall c :: c in ids ==> ChildOf(runs, c, p))
    && (forall j, k :: 0 <= j < k < |ids| ==> ids[j] != ids[k])
  }

  ghost predicate ChildrenCancelled(db: Db, d: Db, s: Settings, ids: seq<RunId>, now: Time) {
    && |d.runs| == |db.runs| && d.workers == db.workers
    && forall k :: 0 <= k < |db.runs| ==>
         d.runs[k] == if k in ids then CancelledChild(db, s, db.runs[k], now) else db.runs[k]
  }

  lemma {:induction false} CancelAllIs(db: Db, s: Settings, p: RunId, ids: seq<RunId>, now: Time)
    requires Inv(db) && p < |db.runs| && db.runs[p].state == TERMINATED && OpenOf(db.runs, p, ids)
    ensures Inv(CancelAll(db, s, ids, now)) && ChildrenCancelled(db, CancelAll(db, s, ids, now), s, ids, now)
  {
    if ids != [] {
      var prefix, c := ids[..|ids|-1], ids[|ids|-1];
      assert ids == prefix + [c] && c in ids;
      assert forall k :: 0 <= k < |prefix| ==> prefix[k] == ids[k] != c;
      CancelAllIs(db, s, p, prefix, now);
      forall k | k in prefix ensures k != p { assert k in ids; ChildIsLeaf(db, k, p); }
      ChildIsLeaf(db, c, p);
      OneMoreChild(db, CancelAll(db, s, prefix, now), s, p, prefix, c, now);
    }
  }

  lemma OneMoreChild(db: Db, before: Db, s: Settings, p: RunId, prefix: seq<RunId>, c: RunId, now: Time)
    requires Inv(before) && ChildrenCancelled(db, before, s, prefix, now)
    requires p < |db.runs| && p !in prefix && db.runs[p].state == TERMINATED && ChildOf(db.runs, c, p) && c !in prefix
    ensures Inv(CancelOne(before, s, c, now).0)
    ensures ChildrenCancelled(db, CancelOne(before, s, c, now).0, s, prefix + [c], now)
  {
    CancelKeeps(before, s, c, now);
    CancelChild(before, s, c, p, now);
  }

  lemma OpenChildrenListed(db: Db, p: RunId)
    ensures OpenOf(db.runs, p, OpenChildren(db.runs, p))
    ensures forall c: RunId :: c in OpenChildren(db.runs, p) <==> ChildOf(db.runs, c, p) && !Settled(db.runs[c].state)
  {
    NewestLists(db.runs, |db.runs|, (c, r: Run) => r.parent == Some(p) && !Settled(r.state));
  }

  lemma ClosedParent(db: Db, p: RunId, s: Settings, now: Time)
    requires Inv(db) && p < |db.runs| && CancelOne(db, s, p, now).1.ParentCancelled?
    ensures var closed := CancelOne(db, s, p, now).0;
      && Inv(closed) && closed.runs == db.runs[p := Closed(db.runs[p], TERMINATED, now)] && closed.workers == db.workers
      && closed.runs[p].state == TERMINATED && OpenOf(closed.runs, p, OpenChildren(db.runs, p))
  {
    CancelKeeps(db, s, p, now);
    OpenChildrenListed(db, p);
    ParentNotItsChild(db, p);
    ParentHasNoZone(db, p);
    assert RowOk(db.runs[p]);
  }

  /** The rows after a parent's cancel: itself, its children, the others. */
  ghost predicate ParentAndChildren(db: Db, d: Db, s: Settings, p: RunId, now: Time)
    requires p < |db.runs|
  {
    && |d.runs| == |db.runs| && d.runs[p] == Closed(db.runs[p], TERMINATED, now)
    && forall c :: 0 <= c < |db.runs| && c != p ==>
         d.runs[c] == if ChildOf(db.runs, c, p) then CancelledChild(db, s, db.runs[c], now) else db.runs[c]
  }

  lemma ChildrenThenParent(db: Db, closed: Db, d: Db, s: Settings, p: RunId, ids: seq<RunId>, now: Time)
    requires p < |db.runs| && closed.runs == db.runs[p := Closed(db.runs[p], TERMINATED, now)]
    requires closed.workers == db.workers
    requires ChildrenCancelled(closed, d, s, ids, now) && p !in ids
    requires forall c: RunId :: c in ids <==> ChildOf(db.runs, c, p) && !Settled(db.runs[c].state)
    ensures ParentAndChildren(db, d, s, p, now)
  {
  }

  /** Cancelling a parent, exactly: the parent is TERMINATED, each open child is dealt with as if it had
      been cancelled by itself, and no other row changes. */
  lemma CancelParentIs(db: Db, s: Settings, p: RunId, now: Time)
    requires Inv(db) && p < |db.runs| && CancelOne(db, s, p, now).1.ParentCancelled?
    ensures Inv(CancelRun(db, s, p, now).0) && ParentAndChildren(db, CancelRun(db, s, p, now).0, s, p, now)
  {
    var closed, ids := CancelOne(db, s, p, now).0, OpenChildren(db.runs, p);
    ClosedParent(db, p, s, now);
    ParentNotItsChild(db, p);
    OpenChildrenListed(db, p);
    CancelAllIs(closed, s, p, ids, now);
    ChildrenThenParent(db, closed, CancelRun(db, s, p, now).0, s, p, ids, now);
  }

  lemma ParentNotItsChild(db: Db, p: RunId)
    requires Inv(db)
    ensures !ChildOf(db.runs, p, p)
  {
    if ChildOf(db.runs, p, p) { ChildIsLeaf(db, p, p); }
  }

  /** A child is waiting to be claimed after its parent was cancelled exactly when its own worker was out
      of reach and it had attempts left: that child runs again under a terminated parent. */
  lemma CancelLeavesWaiting(db: Db, s: Settings, p: RunId, c: RunId, now: Time)
    requires Inv(db) && p < |db.runs| && CancelOne(db, s, p, now).1.ParentCancelled? && ChildOf(db.runs, c, p)
    ensures var d := CancelRun(db, s, p, now).0;
      c < |d.runs| && (d.runs[c].state == PENDING <==>
        && Held(db.runs[c].state) && !Reachable(db, s, db.runs[c].worker, now)
        && db.runs[c].attempt <= db.runs[c].definition.retryMax)
  {
    CancelParentIs(db, s, p, now);
    ChildIsLeaf(db, c, p);
    CancelledChildWaits(db, s, c, now);
  }

  lemma CancelledChildWaits(db: Db, s: Settings, c: RunId, now: Time)
    requires RowsOk(db.runs) && c < |db.runs|
    ensures CancelledChild(db, s, db.runs[c], now).state == PENDING <==>
      && Held(db.runs[c].state) && !Reachable(db, s, db.runs[c].worker, now)
      && db.runs[c].attempt <= db.runs[c].definition.retryMax
  {
  }

  /** The cancel of a child, within the cancel of its parent, is one transaction and goes no deeper. */
  lemma LeafCancel(db: Db, p: RunId, ids: seq<RunId>, k: nat, s: Settings, now: Time)
    requires Inv(db) && p < |db.runs| && db.runs[p].state == TERMINATED && OpenOf(db.runs, p, ids) && k < |ids|
    ensures var mid := CancelAll(db, s, ids[..k], now);
      && p < ids[k] < |mid.runs|
      && CancelRun(mid, s, ids[k], now).0 == CancelAll(db, s, ids[..k+1], now)
  {
    var prefix, c := ids[..k], ids[k];
    assert ids[..k+1] == prefix + [c] && ids[..k+1][..k] == prefix && c in ids;
    assert forall j :: 0 <= j < k ==> prefix[j] == ids[j];
    assert OpenOf(db.runs, p, prefix);
    CancelAllIs(db, s, p, prefix, now);
    ChildIsLeaf(db, c, p);
    assert c !in prefix;
    var mid := CancelAll(db, s, prefix, now);
    assert mid.runs[c] == db.runs[c] && ChildOf(mid.runs, c, p);
    ChildIsLeaf(mid, c, p);
  }
}
