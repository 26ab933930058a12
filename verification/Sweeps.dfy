/** What a sweep over many rows does, in closed form: every listed row makes its move, every parent
    shows what its children then are, and nothing else changes. The order of the rows does not matter. */
module Sweeps {
  import opened Wrappers
  import opened Runs
  import opened RunFacts
  import opened Dispatch
  import opened Invariant

  /** The row of a parent once its children are as in `runs`. */
  ghost function ParentView(r: Run, runs: seq<Run>, p: RunId, now: Time): (v: Run)
    ensures v.zone == r.zone && v.parent == r.parent && v.token == r.token
    ensures v.state == r.state || (r.state == RUNNING && v.state == Verdict(runs, p))
  {
    if r.state == RUNNING && AllSettled(runs, p) then Moved(r, Close(Verdict(runs, p), now)) else r
  }

  ghost predicate SameChildren(runs: seq<Run>, runs': seq<Run>, p: RunId) {
    && |runs| == |runs'|
    && forall c :: 0 <= c < |runs| ==>
         && ChildOf(runs, c, p) == ChildOf(runs', c, p)
         && (ChildOf(runs, c, p) ==> runs[c].state == runs'[c].state)
  }

  lemma SameView(r: Run, runs: seq<Run>, runs': seq<Run>, p: RunId, now: Time)
    requires SameChildren(runs, runs', p)
    ensures AllSettled(runs, p) == AllSettled(runs', p) && Verdict(runs, p) == Verdict(runs', p)
    ensures ParentView(r, runs, p, now) == ParentView(r, runs', p, now)
  {
  }

  ghost predicate RefreshableParent(db: Db, i: RunId)
    requires i < |db.runs|
  {
    db.runs[i].parent.Some? ==>
      var p := db.runs[i].parent.value;
      p < |db.runs| && db.runs[p].parent.None? && db.runs[p].token.None? && db.runs[p].state in {RUNNING, TERMINATED}
  }

  lemma RefreshedRows(db: Db, i: RunId, now: Time)
    requires i < |db.runs| && RefreshableParent(db, i)
    ensures var p := db.runs[i].parent;
      Refreshed(db, i, now) ==
      if p.None? then db
      else db.(runs := db.runs[p.value := ParentView(db.runs[p.value], db.runs, p.value, now)])
  {
  }

  /** Writing row i changes what a parent sees only when the row is its child. */
  lemma ViewAfterPut(runs: seq<Run>, i: RunId, r: Run, p: RunId, r0: Run, now: Time)
    requires i < |runs| && r.parent == runs[i].parent && runs[i].parent != Some(p)
    ensures ParentView(r0, runs[i := r], p, now) == ParentView(r0, runs, p, now)
  {
    assert SameChildren(runs, runs[i := r], p);
    SameView(r0, runs, runs[i := r], p, now);
  }

  ghost predicate RowsAfter(db: Db, d: Db, i: RunId, r: Run, now: Time)
    requires i < |db.runs|
  {
    && |d.runs| == |db.runs|
    && d.runs[i] == r
    && (forall k :: 0 <= k < |d.runs| && k != i && db.runs[k].zone.Some? ==> d.runs[k] == db.runs[k])
    && (forall k :: 0 <= k < |d.runs| && db.runs[k].zone.None? ==> d.runs[k] == ParentView(db.runs[k], d.runs, k, now))
    && d.workers == db.workers && d.nextToken == db.nextToken && d.tokens == Without(db.tokens, db.runs[i].token)
  }

  /** One settling move, row by row. */
  lemma SettleRows(db: Db, i: RunId, m: Move, now: Time)
    requires Inv(db) && i < |db.runs| && CanMove(db.runs[i], m) && Settling(m)
    ensures RowsAfter(db, Settle(db, i, m, now), i, Moved(db.runs[i], m), now)
  {
    MoveFollows(db.runs[i], m);
    MoveKeepsRow(db.runs[i], m);
    assert Moved(db.runs[i], m).token.None?;
    PutRows(db, i, Moved(db.runs[i], m), m, now);
  }

  lemma PutRows(db: Db, i: RunId, r: Run, m: Move, now: Time)
    requires Inv(db) && i < |db.runs| && Follows(db.runs[i], r, m) && Settling(m) && r.token.None?
    requires db.runs[i].zone.Some? && !Settled(db.runs[i].state)
    ensures RowsAfter(db, if Settled(r.state) then Refreshed(Put(db, i, r, false), i, now) else Put(db, i, r, false),
                      i, r, now)
  {
    if r.parent.Some? { ItsParent(db, i); }
    RefreshedRows(Put(db, i, r, false), i, now);
    forall k: RunId | k < |db.runs| && db.runs[k].zone.None?
      ensures RunsAfter(db.runs, i, r, now)[k] == ParentView(db.runs[k], RunsAfter(db.runs, i, r, now), k, now)
    {
      ParentRow(db, i, r, k, now);
    }
  }

  lemma ItsParent(db: Db, i: RunId)
    requires Inv(db) && i < |db.runs| && !Settled(db.runs[i].state) && db.runs[i].parent.Some?
    ensures var p := db.runs[i].parent.value;
      && p < i && db.runs[p].zone.None? && db.runs[p].parent.None? && db.runs[p].token.None?
      && db.runs[p].state in {RUNNING, TERMINATED}
  {
    UnsettledChild(db.runs, i);
    assert LinkOk(db.runs, i) && RowOk(db.runs[db.runs[i].parent.value]);
  }

  ghost function RunsAfter(runs: seq<Run>, i: RunId, r: Run, now: Time): seq<Run>
    requires i < |runs| && (r.parent.Some? ==> r.parent.value < |runs|)
  {
    var next := runs[i := r];
    if Settled(r.state) && r.parent.Some?
    then next[r.parent.value := ParentView(next[r.parent.value], next, r.parent.value, now)]
    else next
  }

  lemma ParentRow(db: Db, i: RunId, r: Run, k: RunId, now: Time)
    requires Inv(db) && i < |db.runs| && k < |db.runs| && db.runs[k].zone.None? && r.parent == db.runs[i].parent
    requires db.runs[i].zone.Some? && !Settled(db.runs[i].state)
    requires r.parent.Some? ==> r.parent.value < i && db.runs[r.parent.value].parent.None?
    ensures RunsAfter(db.runs, i, r, now)[k] == ParentView(db.runs[k], RunsAfter(db.runs, i, r, now), k, now)
  {
    var next, last := db.runs[i := r], RunsAfter(db.runs, i, r, now);
    UntouchedView(db, i, r, k, now);
    if Settled(r.state) && r.parent.Some? {
      ViewAfterPut(next, r.parent.value, last[r.parent.value], k, db.runs[k], now);
    }
  }

  /** Before the refresh, the parents but the row's own are already as their children say. */
  lemma UntouchedView(db: Db, i: RunId, r: Run, k: RunId, now: Time)
    requires Inv(db) && i < |db.runs| && k < |db.runs| && db.runs[k].zone.None? && r.parent == db.runs[i].parent
    requires db.runs[i].zone.Some? && !Settled(db.runs[i].state)
    ensures r.parent != Some(k) || !Settled(r.state) ==> ParentView(db.runs[k], db.runs[i := r], k, now) == db.runs[k]
  {
    assert Aggregates(db.runs, k);
    if r.parent == Some(k) {
      assert ChildOf(db.runs[i := r], i, k);
    } else {
      ViewAfterPut(db.runs, i, r, k, db.runs[k], now);
    }
  }

  // ---------------------------------------------------------------- the whole sweep

  ghost predicate Distinct(ids: seq<RunId>) {
    forall j, k :: 0 <= j < k < |ids| ==> ids[j] != ids[k]
  }

  /** Every listed row may make the sweep's move. */
  ghost predicate Due(db: Db, ids: seq<RunId>, m: Move) {
    && (m.Abandon? || m.Fail?)
    && Distinct(ids)
    && forall i :: i in ids ==> i < |db.runs| && CanMove(db.runs[i], m)
  }

  /** `target` holds what each listed row becomes. */
  ghost predicate Swept(db: Db, d: Db, ids: seq<RunId>, target: seq<Run>, now: Time) {
    && |d.runs| == |db.runs| == |target|
    && (forall k :: 0 <= k < |d.runs| && db.runs[k].zone.Some? ==>
          d.runs[k] == if k in ids then target[k] else db.runs[k])
    && (forall k :: 0 <= k < |d.runs| && db.runs[k].zone.None? ==> d.runs[k] == ParentView(db.runs[k], d.runs, k, now))
    && d.workers == db.workers && d.nextToken == db.nextToken
    && d.tokens == map t | t in db.tokens && db.tokens[t] !in ids :: db.tokens[t]
  }

  /** What each row would become by the sweep's move. */
  ghost function Targets(runs: seq<Run>, m: Move): (target: seq<Run>)
    ensures |target| == |runs|
    ensures forall k :: 0 <= k < |runs| && CanMove(runs[k], m) ==>
              && Guarded(runs[k], m) && target[k] == Moved(runs[k], m)
              && target[k].zone == runs[k].zone && target[k].parent == runs[k].parent
  {
    seq(|runs|, k requires 0 <= k < |runs| => if Guarded(runs[k], m) then Moved(runs[k], m) else runs[k])
  }

  lemma {:induction false} SweepIs(db: Db, ids: seq<RunId>, m: Move, now: Time)
    requires Inv(db) && Due(db, ids, m)
    ensures Inv(Sweep(db, ids, m, now)) && Swept(db, Sweep(db, ids, m, now), ids, Targets(db.runs, m), now)
  {
    if ids == [] {
      UnsweptParents(db, now);
    } else {
      var prefix, i := ids[..|ids|-1], ids[|ids|-1];
      assert ids == prefix + [i];
      DuePrefix(db, prefix, i, m);
      SweepIs(db, prefix, m, now);
      SweepOneMore(db, Sweep(db, prefix, m, now), prefix, i, Targets(db.runs, m), m, now);
    }
  }

  lemma DuePrefix(db: Db, prefix: seq<RunId>, i: RunId, m: Move)
    requires Due(db, prefix + [i], m)
    ensures Due(db, prefix, m) && i !in prefix && i < |db.runs| && CanMove(db.runs[i], m)
  {
    var ids := prefix + [i];
    assert ids[|prefix|] == i && i in ids;
    forall k | k in prefix ensures k in ids && k != i {
      var j :| 0 <= j < |prefix| && prefix[j] == k;
      assert ids[j] == k;
    }
    assert forall j, k :: 0 <= j < k < |prefix| ==> prefix[j] == ids[j] && prefix[k] == ids[k];
  }

  lemma SweepOneMore(db: Db, before: Db, prefix: seq<RunId>, i: RunId, target: seq<Run>, m: Move, now: Time)
    requires TokensOk(db) && Inv(before) && Swept(db, before, prefix, target, now)
    requires i < |db.runs| && i !in prefix && CanMove(db.runs[i], m) && (m.Abandon? || m.Fail?)
    requires Guarded(db.runs[i], m) && target[i] == Moved(db.runs[i], m) && target[i].parent == db.runs[i].parent
    requires forall k :: k in prefix ==> k < |target| && target[k].zone.Some?
    ensures before.runs[i] == db.runs[i] && StillDue(db.runs[i], m) && Inv(Settle(before, i, m, now))
    ensures Swept(db, Settle(before, i, m, now), prefix + [i], target, now)
  {
    SettleFully(before, i, m, now);
    SweepStep(db, before, Settle(before, i, m, now), prefix, i, target, now);
  }

  lemma SettleFully(db: Db, i: RunId, m: Move, now: Time)
    requires Inv(db) && i < |db.runs| && CanMove(db.runs[i], m) && Settling(m)
    ensures Guarded(db.runs[i], m) && Inv(Settle(db, i, m, now)) && Unparented(db.runs)
    ensures RowsAfter(db, Settle(db, i, m, now), i, Moved(db.runs[i], m), now)
  {
    SettleKeeps(db, i, m, now);
    SettleRows(db, i, m, now);
    forall k: RunId | k < |db.runs| ensures db.runs[k].zone.None? ==> db.runs[k].parent.None? {
      assert RowOk(db.runs[k]);
    }
  }

  lemma UnsweptParents(db: Db, now: Time)
    requires Inv(db)
    ensures forall k :: 0 <= k < |db.runs| && db.runs[k].zone.None? ==>
      db.runs[k] == ParentView(db.runs[k], db.runs, k, now)
  {
    forall k: RunId | k < |db.runs| && db.runs[k].zone.None?
      ensures db.runs[k] == ParentView(db.runs[k], db.runs, k, now)
    {
      assert Aggregates(db.runs, k);
    }
  }

  ghost predicate Unparented(runs: seq<Run>) {
    forall c :: 0 <= c < |runs| ==> runs[c].zone.None? ==> runs[c].parent.None?
  }

  lemma SweepStep(db: Db, before: Db, d: Db, prefix: seq<RunId>, i: RunId, target: seq<Run>, now: Time)
    requires TokensOk(db) && TokensOk(before) && Unparented(before.runs) && Swept(db, before, prefix, target, now)
    requires i < |db.runs| && i !in prefix && db.runs[i].zone.Some? && !Settled(db.runs[i].state)
    requires target[i].parent == db.runs[i].parent
    requires forall k :: 0 <= k < |db.runs| && db.runs[k].zone.Some? ==> before.runs[k].zone.Some?
    requires RowsAfter(before, d, i, target[i], now)
    ensures Swept(db, d, prefix + [i], target, now)
  {
    assert SettledKept(before.runs, d.runs);
    forall k: RunId | k < |d.runs| && db.runs[k].zone.None?
      ensures d.runs[k] == ParentView(db.runs[k], d.runs, k, now)
    {
      ParentTwice(db.runs[k], before.runs, d.runs, k, now);
    }
    SweepTokens(db, before, d, prefix, i);
  }

  ghost predicate SettledKept(runs: seq<Run>, runs': seq<Run>) {
    && |runs| == |runs'|
    && forall c :: 0 <= c < |runs| ==>
         && runs'[c].parent == runs[c].parent
         && (runs[c].parent.Some? && Settled(runs[c].state) ==> runs'[c].state == runs[c].state)
  }

  /** A parent's view does not depend on how often it was refreshed on the way. */
  lemma ParentTwice(r: Run, before: seq<Run>, after: seq<Run>, k: RunId, now: Time)
    requires SettledKept(before, after)
    ensures ParentView(ParentView(r, before, k, now), after, k, now) == ParentView(r, after, k, now)
  {
  }

  lemma SweepTokens(db: Db, before: Db, d: Db, prefix: seq<RunId>, i: RunId)
    requires TokensOk(db) && TokensOk(before) && i < |db.runs| && i < |before.runs|
    requires before.runs[i] == db.runs[i] && i !in prefix
    requires before.tokens == map t | t in db.tokens && db.tokens[t] !in prefix :: db.tokens[t]
    requires d.tokens == Without(before.tokens, before.runs[i].token)
    ensures d.tokens == map t | t in db.tokens && db.tokens[t] !in prefix + [i] :: db.tokens[t]
  {
  }
}
