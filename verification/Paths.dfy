/** The paths a run's state takes, as its history shows them. */
module Paths {
  import opened Runs
  import opened Dispatch
  import opened Invariant
  import opened History
  import opened RowMoves

  /** The table of allowed transitions, pair by pair. */
  const ALLOWED: set<(RunState, RunState)> :=
    { (PENDING, OFFERED), (PENDING, CLAIMED), (PENDING, CANCELLED), (PENDING, FAILED_DISPATCH),
      (OFFERED, CLAIMED), (OFFERED, PENDING), (OFFERED, CANCELLED),
      (CLAIMED, RUNNING), (CLAIMED, PENDING), (CLAIMED, ABANDONED), (CLAIMED, TERMINATED),
      (RUNNING, SUCCESS), (RUNNING, FAILURE), (RUNNING, TERMINATED), (RUNNING, ABANDONED),
      (ABANDONED, PENDING) }

  /** Those that the operations make use of: no run is ever offered, and none returns to the queue but by
      abandonment. */
  const TAKEN: set<(RunState, RunState)> :=
    { (PENDING, CLAIMED), (PENDING, CANCELLED), (PENDING, FAILED_DISPATCH),
      (CLAIMED, RUNNING), (CLAIMED, ABANDONED), (CLAIMED, TERMINATED),
      (RUNNING, SUCCESS), (RUNNING, FAILURE), (RUNNING, TERMINATED), (RUNNING, ABANDONED),
      (ABANDONED, PENDING) }

  /** The check before every transition is that table; the states that allow none are the terminal ones. */
  lemma LegalIsAllowed(before: RunState, after: RunState)
    ensures Legal(before, after) <==> (before, after) in ALLOWED
    ensures Terminal(before) <==> forall s :: !Legal(before, s)
  {
    if !Terminal(before) {
      assert Legal(before, if before == RUNNING then SUCCESS else if before == PENDING then CLAIMED else PENDING);
    }
  }

  /** Every write of the state is one of those, but for the one that opens a fan-out parent. */
  ghost predicate Walks(r: Run) {
    && r.history != [] && r.history[0] == PENDING && r.history[|r.history|-1] == r.state
    && forall k {:trigger r.history[k]} :: 0 <= k < |r.history| - 1 ==>
         || (r.history[k], r.history[k+1]) in TAKEN
         || (r.zone.None? && k == 0 && r.history[1] == RUNNING)
  }

  lemma WalkOn(r: Run, r': Run, x: RunState)
    requires Walks(r) && (r.state, x) in TAKEN
    requires r'.history == r.history + [x] && r'.state == x && r'.zone == r.zone
    ensures Walks(r')
  {
  }

  lemma FinishWalks(r: Run, outcome: RunState, at: Time)
    requires Walks(r) && Held(r.state) && outcome in {SUCCESS, FAILURE, TERMINATED}
    ensures Walks(Completed(r, outcome, at))
  {
    var started := if r.state == CLAIMED && outcome != TERMINATED then Transitioned(r, RUNNING, at) else r;
    if started != r { WalkOn(r, started, RUNNING); }
    WalkOn(started, Completed(r, outcome, at), outcome);
  }

  lemma AbandonWalks(r: Run, at: Time)
    requires Walks(r) && Held(r.state)
    ensures Walks(Abandoned(r, at))
  {
    var gone := Transitioned(r, ABANDONED, at);
    WalkOn(r, gone, ABANDONED);
    if RetriesLeft(r) { WalkOn(gone, Abandoned(r, at), PENDING); }
  }

  lemma MoveWalks(r: Run, m: Move)
    requires CanMove(r, m) && Walks(r)
    ensures Guarded(r, m) && Walks(Moved(r, m))
  {
    match m
    case Stay =>
    case Flag =>
    case Claim(_, _, _, _) => WalkOn(r, Moved(r, m), CLAIMED);
    case Renew(toRunning, _, _) => if toRunning && r.state == CLAIMED { WalkOn(r, Moved(r, m), RUNNING); }
    case Finish(outcome, at) => FinishWalks(r, outcome, at);
    case Abandon(at) => AbandonWalks(r, at);
    case Fail(_) => WalkOn(r, Moved(r, m), FAILED_DISPATCH);
    case Withdraw(_) => WalkOn(r, Moved(r, m), CANCELLED);
    case Close(verdict, _) => WalkOn(r, Moved(r, m), verdict);
  }

  lemma NewRowWalks(s: Settings, db: Db, step: Step, i: RunId)
    requires Inv(db) && |db.runs| <= i < |Next(s, db, step).runs|
    ensures Walks(Next(s, db, step).runs[i])
  {
    if !step.SubmitShares? && !step.SubmitRun? { SameLength(s, db, step); }
  }

  /** In every reachable state, every run has only taken such a path to where it is. */
  lemma {:induction false} EveryWalk(s: Settings, workers: map<WorkerId, Worker>, steps: seq<Step>, i: RunId)
    requires i < |Exec(s, Start(workers), steps).runs|
    ensures Walks(Exec(s, Start(workers), steps).runs[i])
  {
    if steps != [] {
      var front := steps[..|steps|-1];
      var before := Exec(s, Start(workers), front);
      AlwaysInv(s, workers, front);
      if i < |before.runs| {
        EveryWalk(s, workers, front, i);
        var m := RowMove(s, before, steps[|steps|-1], i);
        MoveWalks(before.runs[i], m);
      } else {
        NewRowWalks(s, before, steps[|steps|-1], i);
      }
    }
  }
}
