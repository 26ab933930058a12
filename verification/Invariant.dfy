/** What is true of the dispatch database in every state that any interleaving of operations can
    reach, and the proof that each kind of update keeps it. */
module Invariant {
  import opened Wrappers
  import opened Runs
  import opened RunFacts
  import opened Dispatch

  ghost predicate RowsOk(runs: seq<Run>) {
    forall i {:trigger RowOk(runs[i])} :: 0 <= i < |runs| ==> RowOk(runs[i])
  }

  /** A child names an earlier row as its parent, of the same definition, that was opened as a parent. */
  ghost predicate LinkOk(runs: seq<Run>, i: RunId)
    requires i < |runs|
  {
    runs[i].parent.Some? ==>
      var p := runs[i].parent.value;
      && p < i && runs[i].zone.Some?
      && runs[p].zone.None? && runs[p].definition == runs[i].definition && runs[p].state != FAILED_DISPATCH
  }

  ghost predicate LinksOk(runs: seq<Run>) {
    forall i {:trigger LinkOk(runs, i)} :: 0 <= i < |runs| ==> LinkOk(runs, i)
  }

  /** Live tokens and worker-held runs are in one-to-one correspondence. */
  ghost predicate TokensOk(db: Db) {
    && (forall t {:trigger db.tokens[t]} {:trigger t in db.tokens} :: t in db.tokens ==>
          t < db.nextToken && db.tokens[t] < |db.runs| && db.runs[db.tokens[t]].token == Some(t))
    && (forall i :: 0 <= i < |db.runs| && db.runs[i].token.Some? ==>
          db.runs[i].token.value in db.tokens && db.tokens[db.runs[i].token.value] == i)
  }

  ghost predicate WorkerHeld(r: Run) {
    Held(r.state) && r.worker.Some?
  }

  /** At most one run of a singleton definition is with a worker. */
  ghost predicate SingletonsOk(runs: seq<Run>) {
    forall i, j :: 0 <= i < j < |runs| && WorkerHeld(runs[i]) && WorkerHeld(runs[j]) ==>
      runs[i].definition == runs[j].definition ==> !runs[i].definition.singleton
  }

  /** A run's worker exists and serves the run's zone. */
  ghost predicate WorkersOk(db: Db) {
    forall i :: 0 <= i < |db.runs| && db.runs[i].worker.Some? ==>
      db.runs[i].worker.value in db.workers
      && db.runs[i].zone == Some(db.workers[db.runs[i].worker.value].zone)
  }

  /** The state of a fan-out parent is what its children's states say. */
  ghost predicate Aggregates(runs: seq<Run>, p: RunId)
    requires p < |runs|
  {
    runs[p].zone.None? ==>
      && (runs[p].state == RUNNING ==> !AllSettled(runs, p))
      && (runs[p].state == SUCCESS ==> HasChild(runs, p) && AllSucceeded(runs, p))
      && (runs[p].state == FAILURE ==> AllSettled(runs, p) && !AllSucceeded(runs, p))
      && (runs[p].state == TERMINATED ==> HasChild(runs, p))
  }

  ghost predicate Core(db: Db) {
    RowsOk(db.runs) && LinksOk(db.runs) && TokensOk(db) && SingletonsOk(db.runs) && WorkersOk(db)
  }

  ghost predicate AggregatesBut(runs: seq<Run>, q: Option<RunId>) {
    forall p {:trigger Aggregates(runs, p)} :: 0 <= p < |runs| && Some(p) != q ==> Aggregates(runs, p)
  }

  ghost predicate Inv(db: Db) {
    Core(db) && AggregatesBut(db.runs, None)
  }

  // ---------------------------------------------------------------- one row moves

  /** What a claim must respect beyond the row itself. */
  ghost predicate ClaimAllowed(db: Db, i: RunId, m: Move)
    requires i < |db.runs|
  {
    m.Claim? ==>
      && m.tok == db.nextToken && m.w in db.workers && db.runs[i].zone == Some(db.workers[m.w].zone)
      && (db.runs[i].definition.singleton ==> !OtherHeld(db.runs, i))
  }

  lemma PutKeepsTokens(db: Db, i: RunId, r: Run, m: Move)
    requires TokensOk(db) && i < |db.runs| && Follows(db.runs[i], r, m) && ClaimAllowed(db, i, m)
    requires m.Claim? ==> db.runs[i].token.None?
    ensures TokensOk(Put(db, i, r, m.Claim?))
  {
  }

  lemma PutKeepsSingletons(db: Db, i: RunId, r: Run, m: Move)
    requires SingletonsOk(db.runs) && i < |db.runs| && Follows(db.runs[i], r, m) && ClaimAllowed(db, i, m)
    ensures SingletonsOk(db.runs[i := r])
  {
  }

  lemma PutKeepsLinks(db: Db, i: RunId, r: Run, m: Move)
    requires RowsOk(db.runs) && LinksOk(db.runs) && i < |db.runs| && Follows(db.runs[i], r, m)
    requires r.state == FAILED_DISPATCH && r.zone.None? ==> r == db.runs[i]
    ensures LinksOk(db.runs[i := r])
  {
    var runs' := db.runs[i := r];
    forall k | 0 <= k < |runs'|
      ensures LinkOk(runs', k)
    {
      assert LinkOk(db.runs, k);
    }
  }

  lemma ApplyKeepsCore(db: Db, i: RunId, m: Move)
    requires Core(db) && i < |db.runs| && CanMove(db.runs[i], m) && ClaimAllowed(db, i, m)
    ensures Guarded(db.runs[i], m) && Core(Apply(db, i, m))
  {
    MoveFollows(db.runs[i], m);
    MoveKeepsRow(db.runs[i], m);
    PutKeepsCore(db, i, Moved(db.runs[i], m), m);
  }

  lemma PutKeepsCore(db: Db, i: RunId, r: Run, m: Move)
    requires Core(db) && i < |db.runs| && RowOk(r) && Follows(db.runs[i], r, m) && ClaimAllowed(db, i, m)
    requires r.state == FAILED_DISPATCH && r.zone.None? ==> r == db.runs[i]
    ensures Core(Put(db, i, r, m.Claim?))
  {
    assert RowOk(db.runs[i]);
    PutKeepsTokens(db, i, r, m);
    PutKeepsSingletons(db, i, r, m);
    PutKeepsLinks(db, i, r, m);
  }

  /** Parents other than the row's own see no change. */
  lemma PutKeepsAggregate(runs: seq<Run>, i: RunId, r: Run, p: RunId)
    requires i < |runs| && p < |runs| && Aggregates(runs, p) && r.parent == runs[i].parent && p != i
    requires runs[i].parent == Some(p) ==>
      !Settled(runs[i].state) && !Settled(r.state) && runs[p].state !in {SUCCESS, FAILURE}
    ensures Aggregates(runs[i := r], p)
  {
    var runs' := runs[i := r];
    assert forall c :: 0 <= c < |runs| ==> (ChildOf(runs', c, p) <==> ChildOf(runs, c, p));
    if !AllSettled(runs, p) {
      var c :| 0 <= c < |runs| && ChildOf(runs, c, p) && !Settled(runs[c].state);
      assert ChildOf(runs', c, p) && !Settled(runs'[c].state);
    }
    if HasChild(runs, p) {
      var c :| 0 <= c < |runs| && ChildOf(runs, c, p);
      assert ChildOf(runs', c, p);
    }
    if !AllSucceeded(runs, p) {
      var c :| 0 <= c < |runs| && ChildOf(runs, c, p) && runs[c].state != SUCCESS;
      assert ChildOf(runs', c, p);
    }
  }

  lemma UnsettledChild(runs: seq<Run>, i: RunId)
    requires RowsOk(runs) && LinksOk(runs) && AggregatesBut(runs, None)
    requires i < |runs| && !Settled(runs[i].state) && runs[i].parent.Some?
    ensures runs[i].parent.value < i && runs[i].parent.value < |runs|
    ensures runs[runs[i].parent.value].state in {RUNNING, TERMINATED}
  {
    var p := runs[i].parent.value;
    assert LinkOk(runs, i);
    assert RowOk(runs[p]) && Aggregates(runs, p);
    assert ChildOf(runs, i, p);
  }

  /** A run in a zone is written: only the parent of a run that settles may be out of date. */
  lemma PutKeepsAggregates(db: Db, i: RunId, r: Run)
    requires Inv(db) && i < |db.runs| && !Settled(db.runs[i].state)
    requires db.runs[i].zone.Some? && r.zone == db.runs[i].zone && r.parent == db.runs[i].parent
    ensures AggregatesBut(db.runs[i := r], if Settled(r.state) then r.parent else None)
  {
    var runs' := db.runs[i := r];
    forall p: RunId | p < |runs'| && !(Settled(r.state) && r.parent == Some(p))
      ensures Aggregates(runs', p)
    {
      assert Aggregates(db.runs, p);
      if p != i {
        if r.parent == Some(p) { UnsettledChild(db.runs, i); }
        PutKeepsAggregate(db.runs, i, r, p);
      }
    }
  }

  /** A row that moves and stays unsettled. */
  lemma MoveOn(db: Db, i: RunId, m: Move)
    requires Inv(db) && i < |db.runs| && CanMove(db.runs[i], m) && ClaimAllowed(db, i, m)
    requires !m.Close? && !m.Stay? && Guarded(db.runs[i], m) && !Settled(Moved(db.runs[i], m).state)
    ensures Inv(Apply(db, i, m))
  {
    ApplyKeepsCore(db, i, m);
    MoveFollows(db.runs[i], m);
    PutKeepsAggregates(db, i, Moved(db.runs[i], m));
  }

  /** Closing a parent whose children are all settled, with the verdict they give. */
  lemma CloseByVerdict(db: Db, p: RunId, now: Time)
    requires Core(db) && p < |db.runs| && AggregatesBut(db.runs, Some(p))
    requires db.runs[p].zone.None? && db.runs[p].state == RUNNING && AllSettled(db.runs, p) && HasChild(db.runs, p)
    ensures Inv(Apply(db, p, Close(Verdict(db.runs, p), now)))
  {
    var m := Close(Verdict(db.runs, p), now);
    ApplyKeepsCore(db, p, m);
    CloseAggregates(db, p, m);
  }

  lemma CloseAggregates(db: Db, p: RunId, m: Move)
    requires Core(db) && p < |db.runs| && AggregatesBut(db.runs, Some(p)) && m.Close? && CanMove(db.runs[p], m)
    requires m.verdict == TERMINATED || m.verdict == Verdict(db.runs, p)
    requires HasChild(db.runs, p) && (m.verdict != TERMINATED ==> AllSettled(db.runs, p))
    ensures AggregatesBut(Apply(db, p, m).runs, None)
  {
    var r := Moved(db.runs[p], m);
    MoveFollows(db.runs[p], m);
    var runs' := db.runs[p := r];
    assert RowOk(db.runs[p]);
    forall q | 0 <= q < |db.runs|
      ensures Aggregates(runs', q)
    {
      if q != p {
        PutKeepsAggregate(db.runs, p, r, q);
      } else {
        assert forall c :: 0 <= c < |runs'| ==> ChildOf(runs', c, p) == ChildOf(db.runs, c, p);
        assert forall c :: 0 <= c < |runs'| && ChildOf(runs', c, p) ==> c != p by {
          forall c | 0 <= c < |runs'| && ChildOf(runs', c, p) ensures c != p { assert LinkOk(db.runs, c); }
        }
      }
    }
  }

  lemma RefreshKeeps(db: Db, i: RunId, now: Time)
    requires Core(db) && i < |db.runs| && AggregatesBut(db.runs, db.runs[i].parent)
    requires db.runs[i].parent.Some? ==>
               db.runs[i].parent.value < |db.runs| && db.runs[db.runs[i].parent.value].state in {RUNNING, TERMINATED}
    ensures Inv(Refreshed(db, i, now))
  {
    if db.runs[i].parent.Some? {
      var p := db.runs[i].parent.value;
      assert LinkOk(db.runs, i) && ChildOf(db.runs, i, p);
      if AllSettled(db.runs, p) && db.runs[p].state == RUNNING {
        CloseByVerdict(db, p, now);
      } else {
        assert Aggregates(db.runs, p);
      }
    }
  }

  ghost predicate Settling(m: Move) {
    m.Finish? || m.Fail? || m.Withdraw? || m.Abandon?
  }

  /** A row that may settle, and the parent that may close with it. */
  lemma SettleKeeps(db: Db, i: RunId, m: Move, now: Time)
    requires Inv(db) && i < |db.runs| && CanMove(db.runs[i], m) && Settling(m)
    ensures Guarded(db.runs[i], m) && Inv(Settle(db, i, m, now))
  {
    MoveFollows(db.runs[i], m);
    MoveKeepsRow(db.runs[i], m);
    PutSettles(db, i, Moved(db.runs[i], m), m, now);
  }

  lemma PutSettles(db: Db, i: RunId, r: Run, m: Move, now: Time)
    requires Inv(db) && i < |db.runs| && RowOk(r) && Follows(db.runs[i], r, m) && Settling(m)
    requires db.runs[i].zone.Some? && !Settled(db.runs[i].state)
    ensures Settled(r.state) ==> Inv(Refreshed(Put(db, i, r, false), i, now))
    ensures !Settled(r.state) ==> Inv(Put(db, i, r, false))
  {
    PutKeepsCore(db, i, r, m);
    PutKeepsAggregates(db, i, r);
    if db.runs[i].parent.Some? { UnsettledChild(db.runs, i); }
    if Settled(r.state) { RefreshKeeps(Put(db, i, r, false), i, now); }
  }
}
