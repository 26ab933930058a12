/** Fan-out parents, singletons, and what happens when a definition is both. */
module FanOut {
  import opened Wrappers
  import opened Runs
  import opened RunFacts
  import opened Dispatch
  import opened Views
  import opened Invariant
  import opened Sweeps
  import opened History
  import opened RowMoves
  import opened Zones
  import opened Submission

  // ---------------------------------------------------------------- aggregation, in every state

  lemma ChildrenAsSeen(db: Db, p: RunId)
    ensures IsParent(db, p) <==> HasChild(db.runs, p)
    ensures ChildrenOver(db, p) <==> AllSettled(db.runs, p)
    ensures ChildrenSucceeded(db, p) <==> AllSucceeded(db.runs, p)
  {
    if c :| 0 <= c < |db.runs| && db.runs[c].parent == Some(p) { assert ChildOf(db.runs, c, p); }
  }

  /** In every reachable state: a parent is RUNNING only while a child is not over, SUCCESS exactly when
      all its children succeeded, FAILURE exactly when they are all over and not all succeeded;
      TERMINATED is the one end that does not depend on them. */
  lemma ParentsAggregate(s: Settings, workers: map<WorkerId, Worker>, steps: seq<Step>, p: RunId)
    requires p < |Exec(s, Start(workers), steps).runs| && IsParent(Exec(s, Start(workers), steps), p)
    ensures var db := Exec(s, Start(workers), steps); var r := db.runs[p];
      && r.worker.None? && r.token.None? && r.state in {RUNNING, SUCCESS, FAILURE, TERMINATED}
      && (r.state == RUNNING ==> !ChildrenOver(db, p))
      && (r.state == SUCCESS ==> ChildrenSucceeded(db, p))
      && (r.state == FAILURE ==> ChildrenOver(db, p) && !ChildrenSucceeded(db, p))
      && (r.state != TERMINATED && ChildrenOver(db, p) ==>
            r.state == if ChildrenSucceeded(db, p) then SUCCESS else FAILURE)
  {
    var db := Exec(s, Start(workers), steps);
    AlwaysInv(s, workers, steps);
    ChildrenAsSeen(db, p);
    ParentHasNoZone(db, p);
    assert RowOk(db.runs[p]) && Aggregates(db.runs, p);
    if AllSucceeded(db.runs, p) {
      assert AllSettled(db.runs, p);
    }
  }

  /** Only a cancel of the parent itself terminates it. */
  lemma OnlyCancelTerminates(s: Settings, db: Db, step: Step, p: RunId)
    requires Inv(db) && p < |db.runs| && HasChild(db.runs, p) && db.runs[p].state != TERMINATED
    requires p < |Next(s, db, step).runs| && Next(s, db, step).runs[p].state == TERMINATED
    ensures step.CancelRow? && step.i == p
  {
    ParentHasNoZone(db, p);
    var m := RowMove(s, db, step, p);
  }

  // ---------------------------------------------------------------- singletons

  /** In every reachable state at most one run of a singleton definition is with a worker. */
  lemma SingletonSafety(s: Settings, workers: map<WorkerId, Worker>, steps: seq<Step>, i: RunId, j: RunId)
    requires var runs := Exec(s, Start(workers), steps).runs;
      && i < |runs| && j < |runs| && runs[i].definition == runs[j].definition && runs[i].definition.singleton
      && WorkerHeld(runs[i]) && WorkerHeld(runs[j])
    ensures i == j
  {
    AlwaysInv(s, workers, steps);
  }

  // ---------------------------------------------------------------- a singleton that fans out

  /** No worker ever had this run. */
  ghost predicate NeverRan(r: Run) {
    Count(r.history, CLAIMED) == 0
  }

  /** A singleton parent that was not cancelled has children no worker ever had, and has not succeeded. */
  ghost predicate Stuck(runs: seq<Run>, p: RunId)
    requires p < |runs|
  {
    runs[p].zone.None? && runs[p].definition.singleton ==>
      && runs[p].state != SUCCESS
      && (runs[p].state in {RUNNING, FAILURE} ==>
            forall c :: 0 <= c < |runs| && ChildOf(runs, c, p) ==> NeverRan(runs[c]))
  }

  lemma MoveRan(r: Run, m: Move)
    requires CanMove(r, m) && !m.Claim?
    ensures Guarded(r, m) && Count(Moved(r, m).history, CLAIMED) == Count(r.history, CLAIMED)
  {
    var h := r.history;
    match m
    case Stay => case Flag => case Claim(_, _, _, _) =>
    case Renew(_, _, _) => CountSnoc(h, RUNNING, CLAIMED);
    case Finish(o, _) => CountSnoc(h, RUNNING, CLAIMED); CountSnoc(h + [RUNNING], o, CLAIMED); CountSnoc(h, o, CLAIMED);
    case Abandon(_) => CountSnoc(h, ABANDONED, CLAIMED); CountSnoc(h + [ABANDONED], PENDING, CLAIMED);
    case Fail(_) => CountSnoc(h, FAILED_DISPATCH, CLAIMED);
    case Withdraw(_) => CountSnoc(h, CANCELLED, CLAIMED);
    case Close(v, _) => CountSnoc(h, v, CLAIMED);
  }

  /** While a singleton parent is RUNNING no worker is offered one of its children. */
  lemma ChildNotClaimable(s: Settings, db: Db, step: Step, c: RunId, p: RunId)
    requires Inv(db) && c < |db.runs| && ChildOf(db.runs, c, p) && p < |db.runs|
    requires db.runs[p].definition.singleton && db.runs[p].state == RUNNING
    ensures step.ClaimNext? ==> ClaimOne(db, s, step.w, step.at).1 != Some(c)
  {
    assert LinkOk(db.runs, c);
    assert OtherHeld(db.runs, c);
  }

  lemma ChildNeverRan(s: Settings, db: Db, step: Step, c: RunId, p: RunId)
    requires Inv(db) && c < |db.runs| && ChildOf(db.runs, c, p) && p < |db.runs|
    requires db.runs[p].definition.singleton && db.runs[p].state in {RUNNING, FAILURE} && NeverRan(db.runs[c])
    requires db.runs[p].zone.None?
    ensures c < |Next(s, db, step).runs| && NeverRan(Next(s, db, step).runs[c])
  {
    var m := RowMove(s, db, step, c);
    if db.runs[p].state == RUNNING {
      ChildNotClaimable(s, db, step, c, p);
    } else {
      assert Aggregates(db.runs, p);
    }
    MoveRan(db.runs[c], m);
  }

  /** The rows a step adds are children only of rows it adds. */
  lemma NewChildren(s: Settings, db: Db, step: Step, c: RunId)
    requires Inv(db) && |db.runs| <= c < |Next(s, db, step).runs|
    ensures var r := Next(s, db, step).runs[c]; r.parent.Some? ==> r.parent.value >= |db.runs| && NeverRan(r)
  {
    if step.SubmitShares? { assert [PENDING][..0] == []; }
    if !step.SubmitShares? && !step.SubmitRun? { SameLength(s, db, step); }
  }

  lemma StuckStays(s: Settings, db: Db, step: Step, p: RunId)
    requires Inv(db) && p < |db.runs| && Stuck(db.runs, p)
    ensures p < |Next(s, db, step).runs| && Stuck(Next(s, db, step).runs, p)
  {
    var runs' := Next(s, db, step).runs;
    var m := RowMove(s, db, step, p);
    MoveFollows(db.runs[p], m);
    assert RowOk(db.runs[p]);
    if db.runs[p].zone.None? && db.runs[p].definition.singleton && db.runs[p].state in {RUNNING, FAILURE} {
      forall c: RunId | c < |runs'| && ChildOf(runs', c, p)
        ensures NeverRan(runs'[c])
      {
        if c < |db.runs| {
          var mc := RowMove(s, db, step, c);
          MoveFollows(db.runs[c], mc);
          ChildNeverRan(s, db, step, c, p);
        } else {
          NewChildren(s, db, step, c);
        }
      }
      StepKeeps(s, db, step);
      NotSucceeded(Next(s, db, step), p);
    }
  }

  lemma NotSucceeded(db: Db, p: RunId)
    requires Inv(db) && p < |db.runs| && db.runs[p].zone.None?
    requires forall c :: 0 <= c < |db.runs| && ChildOf(db.runs, c, p) ==> NeverRan(db.runs[c])
    ensures db.runs[p].state != SUCCESS
  {
    assert Aggregates(db.runs, p);
    if HasChild(db.runs, p) {
      var c :| 0 <= c < |db.runs| && ChildOf(db.runs, c, p);
      assert LinkOk(db.runs, c) && RowOk(db.runs[c]);
    }
  }

  lemma OldParent(s: Settings, db: Db, step: Step, c: RunId)
    requires Inv(db) && c < |db.runs|
    ensures c < |Next(s, db, step).runs|
    ensures Next(s, db, step).runs[c].parent.Some? ==> Next(s, db, step).runs[c].parent.value < |db.runs|
  {
    var m := RowMove(s, db, step, c);
    MoveFollows(db.runs[c], m);
    assert LinkOk(db.runs, c);
  }

  lemma NewParentStuck(s: Settings, db: Db, step: Step, p: RunId)
    requires Inv(db) && |db.runs| <= p < |Next(s, db, step).runs|
    ensures Stuck(Next(s, db, step).runs, p)
  {
    var runs' := Next(s, db, step).runs;
    forall c: RunId | c < |runs'| && ChildOf(runs', c, p)
      ensures NeverRan(runs'[c])
    {
      if c < |db.runs| {
        OldParent(s, db, step, c);
      } else {
        NewChildren(s, db, step, c);
      }
    }
    StepKeeps(s, db, step);
    if runs'[p].zone.None? { NotSucceeded(Next(s, db, step), p); }
  }

  lemma {:induction false} SingletonsAreStuck(s: Settings, workers: map<WorkerId, Worker>, steps: seq<Step>, p: RunId)
    requires p < |Exec(s, Start(workers), steps).runs|
    ensures Stuck(Exec(s, Start(workers), steps).runs, p)
  {
    if steps != [] {
      var prefix := steps[..|steps|-1];
      var before := Exec(s, Start(workers), prefix);
      AlwaysInv(s, workers, prefix);
      if p < |before.runs| {
        SingletonsAreStuck(s, workers, prefix, p);
        StuckStays(s, before, steps[|steps|-1], p);
      } else {
        NewParentStuck(s, before, steps[|steps|-1], p);
      }
    }
  }

  // ---------------------------------------------------------------- when a fan-out can succeed

  predicate Fans(d: Definition) {
    d.enabled && d.zonePolicy in {PerDevice, ZonePolicy.FanOut}
  }

  /** What `submit_run` can do: it takes enabled definitions only, and the shares of a fan-out are those of its
      target devices. */
  ghost predicate Feasible(step: Step) {
    && (step.SubmitRun? ==> step.d.enabled && !Fans(step.d))
    && (step.SubmitShares? ==> Fans(step.d) && exists rows, devices :: step.shares == SharesOf(step.d, rows, devices))
  }

  /** Submissions did what `submit_run` can do, and parent p of definition d has succeeded. */
  ghost predicate FanOutSucceeds(d: Definition, s: Settings, workers: map<WorkerId, Worker>, steps: seq<Step>,
                                 p: RunId) {
    var runs := Exec(s, Start(workers), steps).runs;
    && (forall k :: 0 <= k < |steps| ==> Feasible(steps[k]))
    && p < |runs| && HasChild(runs, p) && runs[p].definition == d && runs[p].state == SUCCESS
  }

  /** A fan-out can succeed if and only if its definition is enabled, fans out and is not a singleton: the RUNNING
      parent counts as the one run a singleton may have, so its own children are never offered to a worker. */
  lemma FanOutCanSucceed(d: Definition)
    ensures (exists s, workers, steps, p :: FanOutSucceeds(d, s, workers, steps, p)) <==> Fans(d) && !d.singleton
  {
    forall s, workers, steps, p | FanOutSucceeds(d, s, workers, steps, p) ensures Fans(d) && !d.singleton {
      SingletonsAreStuck(s, workers, steps, p);
      SucceededFans(d, s, workers, steps, p);
    }
    if Fans(d) && !d.singleton {
      OneChildSucceeds(d, Settings(1, 1, 1), map["w" := Worker(Z, true, false, d.capabilities, 1, None)]);
    }
  }

  lemma SucceededFans(d: Definition, s: Settings, workers: map<WorkerId, Worker>, steps: seq<Step>, p: RunId)
    requires FanOutSucceeds(d, s, workers, steps, p)
    ensures Fans(d) && Exec(s, Start(workers), steps).runs[p].zone.None?
  {
    var db := Exec(s, Start(workers), steps);
    AlwaysInv(s, workers, steps);
    ParentHasNoZone(db, p);
    var c :| 0 <= c < |db.runs| && ChildOf(db.runs, c, p);
    assert LinkOk(db.runs, c);
    ChildrenFan(s, workers, steps, c);
  }

  lemma ChildFans(s: Settings, db: Db, step: Step, c: RunId)
    requires Inv(db) && Feasible(step) && c < |Next(s, db, step).runs| && Next(s, db, step).runs[c].parent.Some?
    requires c < |db.runs| && db.runs[c].parent.Some? ==> Fans(db.runs[c].definition)
    ensures Fans(Next(s, db, step).runs[c].definition)
  {
    if c < |db.runs| {
      var m := RowMove(s, db, step, c);
      MoveFollows(db.runs[c], m);
    } else {
      if !step.SubmitShares? && !step.SubmitRun? { SameLength(s, db, step); }
    }
  }

  lemma {:induction false} ChildrenFan(s: Settings, workers: map<WorkerId, Worker>, steps: seq<Step>, c: RunId)
    requires forall k :: 0 <= k < |steps| ==> Feasible(steps[k])
    requires c < |Exec(s, Start(workers), steps).runs| && Exec(s, Start(workers), steps).runs[c].parent.Some?
    ensures Fans(Exec(s, Start(workers), steps).runs[c].definition)
  {
    if steps != [] {
      var front, last := steps[..|steps|-1], steps[|steps|-1];
      var before := Exec(s, Start(workers), front);
      AlwaysInv(s, workers, front);
      if c < |before.runs| && before.runs[c].parent.Some? { ChildrenFan(s, workers, front, c); }
      ChildFans(s, before, last, c);
    }
  }

  /** A zone, a device of it, and the share that this device makes. */
  const Z := Zone("z", 0, true, FailFast, 0, [])
  const DEVICE := Device("dev", None, {}, "", None)
  const ZONE_ROWS := [ZoneRow(Z, [Rule(Some({"dev"}), {}, true, {}, {})])]
  const SHARES := [Share(Z, ["dev"])]

  lemma OneShare(d: Definition)
    ensures SHARES == SharesOf(d, ZONE_ROWS, [DEVICE])
  {
    var row := ZONE_ROWS[0];
    assert Matches(row.rules[0], DEVICE) && Serves(row, DEVICE);
    assert ZONE_ROWS[..0] == [] && Matching(ZONE_ROWS, DEVICE) == [Z];
    LeastIsFirst([Z]);
    assert Resolve(ZONE_ROWS, DEVICE) == Some(Z);
    var targets := Targeted(ZONE_ROWS, [DEVICE]);
    assert targets == [Target("dev", Z)] && targets[..0] == [];
    assert ZonesOf(targets) == [Z] && DevicesIn(targets, Z) == ["dev"];
  }

  lemma ExecSnoc(s: Settings, db: Db, steps: seq<Step>, step: Step)
    ensures Exec(s, db, steps + [step]) == Next(s, Exec(s, db, steps), step)
  {
  }

  lemma ExecThree(s: Settings, db: Db, a: Step, b: Step, c: Step)
    ensures Exec(s, db, [a, b, c]) == Next(s, Next(s, Next(s, db, a), b), c)
  {
    ExecSnoc(s, db, [], a);
    ExecSnoc(s, db, [a], b);
    ExecSnoc(s, db, [a, b], c);
    assert [] + [a] == [a] && [a] + [b] == [a, b] && [a, b] + [c] == [a, b, c];
  }

  /** A RUNNING parent of definition d in row 0 and its one child in row 1. */
  ghost predicate Family(runs: seq<Run>, d: Definition, z: Zone, child: RunState, w: Option<WorkerId>) {
    && |runs| == 2
    && runs[0].definition == d && runs[0].state == RUNNING && runs[0].zone.None?
    && runs[1].definition == d && runs[1].state == child && runs[1].zone == Some(z)
    && runs[1].parent == Some(0) && runs[1].worker == w
  }

  lemma FamilyClaimed(s: Settings, db: Db, d: Definition, z: Zone, w: WorkerId)
    requires Family(db.runs, d, z, PENDING, None) && !d.singleton
    requires w in db.workers && db.workers[w].zone == z && d.capabilities <= db.workers[w].capabilities
    ensures Family(ClaimOne(db, s, w, 0).0.runs, d, z, CLAIMED, Some(w))
  {
    assert Pick(db.runs, db.workers[w], 1, 0) == Some(1);
    assert Pick(db.runs, db.workers[w], 0, 0) == Some(1);
  }

  lemma FamilyClosed(runs: seq<Run>, runs': seq<Run>, d: Definition, z: Zone, w: WorkerId)
    requires Family(runs, d, z, CLAIMED, Some(w)) && runs[0].parent.None?
    requires |runs'| == 2 && runs'[1].state == SUCCESS && runs'[1].parent == Some(0)
    requires runs'[0] == ParentView(runs[0], runs', 0, 0)
    ensures ChildOf(runs', 1, 0) && runs'[0].definition == d && runs'[0].state == SUCCESS
  {
  }

  lemma FamilySucceeds(s: Settings, db: Db, d: Definition, z: Zone, w: WorkerId)
    requires Inv(db) && Family(db.runs, d, z, CLAIMED, Some(w))
    ensures var runs := CompleteRun(db, s, w, 1, SUCCESS, 0).0.runs;
      |runs| == 2 && ChildOf(runs, 1, 0) && runs[0].definition == d && runs[0].state == SUCCESS
  {
    SettleRows(db, 1, Finish(SUCCESS, 0), 0);
    MoveFollows(db.runs[1], Finish(SUCCESS, 0));
    assert RowOk(db.runs[0]);
    FamilyClosed(db.runs, Settle(db, 1, Finish(SUCCESS, 0), 0).runs, d, z, w);
  }

  lemma FamilySubmitted(d: Definition, workers: map<WorkerId, Worker>)
    ensures var db := SubmitFanOut(Start(workers), d, SHARES, 0);
      Inv(db) && Family(db.runs, d, Z, PENDING, None) && db.workers == workers
  {
    SubmitFanOutKeeps(Start(workers), d, SHARES, 0);
  }

  /** The fan-out is submitted, its child claimed and completed. */
  function OneChild(d: Definition): seq<Step> {
    [SubmitShares(d, SHARES, 0), ClaimNext("w", 0), Complete("w", 1, SUCCESS, 0)]
  }

  lemma OneChildFeasible(d: Definition)
    requires Fans(d)
    ensures forall k :: 0 <= k < |OneChild(d)| ==> Feasible(OneChild(d)[k])
  {
    OneShare(d);
  }

  lemma OneChildCompletes(d: Definition, s: Settings, workers: map<WorkerId, Worker>)
    requires !d.singleton && "w" in workers && workers["w"].zone == Z && workers["w"].capabilities == d.capabilities
    ensures var runs := Exec(s, Start(workers), OneChild(d)).runs;
      |runs| == 2 && ChildOf(runs, 1, 0) && runs[0].definition == d && runs[0].state == SUCCESS
  {
    var db := SubmitFanOut(Start(workers), d, SHARES, 0);
    FamilySubmitted(d, workers);
    FamilyClaimed(s, db, d, Z, "w");
    ClaimKeeps(db, s, "w", 0);
    FamilySucceeds(s, ClaimOne(db, s, "w", 0).0, d, Z, "w");
    ExecThree(s, Start(workers), SubmitShares(d, SHARES, 0), ClaimNext("w", 0), Complete("w", 1, SUCCESS, 0));
  }

  lemma OneChildSucceeds(d: Definition, s: Settings, workers: map<WorkerId, Worker>)
    requires Fans(d) && !d.singleton
    requires "w" in workers && workers["w"].zone == Z && workers["w"].capabilities == d.capabilities
    ensures FanOutSucceeds(d, s, workers, OneChild(d), 0)
  {
    OneChildFeasible(d);
    OneChildCompletes(d, s, workers);
  }
}
