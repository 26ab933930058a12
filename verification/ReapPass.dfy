/** The reaper's pass, exactly: what every row is after `reap_expired`. */
module ReapPass {
  import opened Runs
  import opened Dispatch
  import opened Invariant
  import opened Sweeps

  /** A dispatched run after the pass, as a function of the run alone. */
  ghost function Reaped(r: Run, now: Time): Run {
    var a := if Expired(r, now) then Abandoned(r, now) else r;
    if Overdue(a, now) then DispatchFailed(a, now) else a
  }

  ghost predicate ExactlyReaped(db: Db, d: Db, now: Time) {
    && |d.runs| == |db.runs|
    && (forall k :: 0 <= k < |d.runs| && db.runs[k].zone.Some? ==> d.runs[k] == Reaped(db.runs[k], now))
    && (forall p :: 0 <= p < |d.runs| && db.runs[p].zone.None? ==> d.runs[p] == ParentView(db.runs[p], d.runs, p, now))
    && d.workers == db.workers && d.nextToken == db.nextToken
    && d.tokens == map t |
         t in db.tokens && db.tokens[t] < |db.runs| && !Expired(db.runs[db.tokens[t]], now) :: db.tokens[t]
  }

  lemma ExpiredListed(runs: seq<Run>, now: Time)
    ensures forall i: RunId :: i in ExpiredIds(runs, now) <==> i < |runs| && Expired(runs[i], now)
    ensures Distinct(ExpiredIds(runs, now))
  {
    NewestLists(runs, |runs|, (i, r) => Expired(r, now));
  }

  lemma OverdueListed(runs: seq<Run>, now: Time)
    ensures forall i: RunId :: i in OverdueIds(runs, now) <==> i < |runs| && Overdue(runs[i], now)
    ensures Distinct(OverdueIds(runs, now))
  {
    NewestLists(runs, |runs|, (i, r) => Overdue(r, now));
  }

  lemma LeasesReaped(db: Db, now: Time)
    requires Inv(db)
    ensures var ids := ExpiredIds(db.runs, now);
            Due(db, ids, Abandon(now)) && Inv(ReapLeases(db, now))
            && Swept(db, ReapLeases(db, now), ids, Targets(db.runs, Abandon(now)), now)
  {
    var ids := ExpiredIds(db.runs, now);
    ExpiredListed(db.runs, now);
    forall i | i in ids ensures i < |db.runs| && CanMove(db.runs[i], Abandon(now)) {
      assert RowOk(db.runs[i]);
    }
    SweepIs(db, ids, Abandon(now), now);
  }

  lemma WaitsReaped(db: Db, now: Time)
    requires Inv(db)
    ensures var ids := OverdueIds(db.runs, now);
            Due(db, ids, Fail(now)) && Inv(ReapWaits(db, now))
            && Swept(db, ReapWaits(db, now), ids, Targets(db.runs, Fail(now)), now)
  {
    OverdueListed(db.runs, now);
    SweepIs(db, OverdueIds(db.runs, now), Fail(now), now);
  }

  /** One pass abandons exactly the expired runs, fails exactly the runs then overdue, closes exactly
      the parents whose children have then all settled, and touches nothing else. */
  lemma ReapIsExact(db: Db, now: Time)
    requires Inv(db)
    ensures Inv(ReapExpired(db, now)) && ExactlyReaped(db, ReapExpired(db, now), now)
  {
    var mid := ReapLeases(db, now);
    var d := ReapWaits(mid, now);
    LeasesReaped(db, now);
    WaitsReaped(mid, now);
    ExpiredListed(db.runs, now);
    OverdueListed(mid.runs, now);
    forall k: RunId | k < |db.runs|
      ensures db.runs[k].zone.Some? ==> d.runs[k] == Reaped(db.runs[k], now)
      ensures SettledStays(mid.runs[k], d.runs[k])
    {
      ReapedOne(db, k, now);
    }
    ReapedParents(db, mid, d, now);
    ReapedTokens(db, mid, d, ExpiredIds(db.runs, now),
                 OverdueIds(mid.runs, now), now);
  }

  ghost predicate Lists(ids: seq<RunId>, runs: seq<Run>, due: Run -> bool) {
    forall i: RunId :: i in ids <==> i < |runs| && due(runs[i])
  }

  lemma LeaseRow(db: Db, k: RunId, now: Time)
    requires Inv(db) && k < |db.runs|
    ensures var mid := ReapLeases(db, now);
      && |mid.runs| == |db.runs|
      && (db.runs[k].zone.Some? ==>
            mid.runs[k] == if Expired(db.runs[k], now) then Abandoned(db.runs[k], now) else db.runs[k])
      && (db.runs[k].zone.None? ==> mid.runs[k].zone.None?)
  {
    ExpiredListed(db.runs, now);
    LeasesReaped(db, now);
  }

  lemma WaitRow(db: Db, k: RunId, now: Time)
    requires Inv(db) && k < |db.runs|
    ensures var d := ReapWaits(db, now);
      && |d.runs| == |db.runs|
      && (db.runs[k].zone.Some? ==>
            d.runs[k] == if Overdue(db.runs[k], now) then DispatchFailed(db.runs[k], now) else db.runs[k])
      && (db.runs[k].zone.None? ==> d.runs[k].parent.None? && (Settled(db.runs[k].state) ==> d.runs[k] == db.runs[k]))
  {
    OverdueListed(db.runs, now);
    WaitsReaped(db, now);
    assert RowOk(db.runs[k]);
  }

  lemma ReapedOne(db: Db, k: RunId, now: Time)
    requires Inv(db) && k < |db.runs|
    ensures var mid, d := ReapLeases(db, now), ReapExpired(db, now);
      && |mid.runs| == |d.runs| == |db.runs|
      && (db.runs[k].zone.Some? ==> d.runs[k] == Reaped(db.runs[k], now))
      && SettledStays(mid.runs[k], d.runs[k])
  {
    LeasesReaped(db, now);
    LeaseRow(db, k, now);
    WaitRow(ReapLeases(db, now), k, now);
    assert RowOk(ReapLeases(db, now).runs[k]);
  }

  ghost predicate SettledStays(r: Run, r': Run) {
    r'.parent == r.parent && (Settled(r.state) ==> r'.state == r.state)
  }

  lemma ReapedParents(db: Db, mid: Db, d: Db, now: Time)
    requires |db.runs| == |mid.runs| == |d.runs|
    requires forall k :: 0 <= k < |db.runs| && db.runs[k].zone.None? ==>
      mid.runs[k] == ParentView(db.runs[k], mid.runs, k, now) && d.runs[k] == ParentView(mid.runs[k], d.runs, k, now)
    requires SettledKept(mid.runs, d.runs)
    ensures forall p :: 0 <= p < |d.runs| && db.runs[p].zone.None? ==>
      d.runs[p] == ParentView(db.runs[p], d.runs, p, now)
  {
  }

  lemma ReapedTokens(db: Db, mid: Db, d: Db, expired: seq<RunId>, overdue: seq<RunId>, now: Time)
    requires Inv(db) && Inv(mid) && |mid.runs| == |db.runs|
    requires Lists(expired, db.runs, r => Expired(r, now)) && Lists(overdue, mid.runs, r => Overdue(r, now))
    requires mid.tokens == map t | t in db.tokens && db.tokens[t] !in expired :: db.tokens[t]
    requires d.tokens == map t | t in mid.tokens && mid.tokens[t] !in overdue :: mid.tokens[t]
    ensures d.tokens == map t |
      t in db.tokens && db.tokens[t] < |db.runs| && !Expired(db.runs[db.tokens[t]], now) :: db.tokens[t]
  {
    forall t | t in mid.tokens ensures mid.tokens[t] !in overdue {
      assert RowOk(mid.runs[mid.tokens[t]]);
    }
  }

  /** The run's zone lets runs wait, and this run has waited longer than the zone allows. */
  ghost predicate WaitedOut(r: Run, now: Time)
    requires r.zone.Some?
  {
    r.zone.value.failoverPolicy != FailFast && now > r.queuedAt + r.zone.value.maxWaitSeconds
  }

  /** What an operator reads off the pass for one run. */
  lemma ReapOutcome(r: Run, now: Time)
    requires RowOk(r) && r.zone.Some?
    ensures var r' := Reaped(r, now);
      && !Expired(r', now) && !Overdue(r', now)
      && (Expired(r, now) && r.attempt == r.definition.retryMax + 1 ==>
            r'.state == ABANDONED && r'.attempt == r.attempt)
      && (Expired(r, now) && r.attempt <= r.definition.retryMax ==>
            && r'.attempt == r.attempt + 1
            && r'.state == if WaitedOut(r, now) then FAILED_DISPATCH else PENDING)
      && (Held(r.state) && !Expired(r, now) ==> r' == r)
      && (r.state == PENDING ==> r'.state == if WaitedOut(r, now) then FAILED_DISPATCH else PENDING)
      && (Settled(r.state) ==> r' == r)
  {
  }
}
