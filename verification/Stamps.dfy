/** The timestamps of a run, and the worker its JobResult names: each is of the operation that it stands for. */
module Stamps {
  import opened Wrappers
  import opened Runs
  import opened Dispatch
  import opened Views
  import opened Invariant
  import opened History
  import opened RowMoves

  /** When a run was created, when its state last changed, when and by whom it was last claimed, when it first ran, and
      when an attempt last ended. */
  datatype Times = Times(created: Time, changed: Time, claimed: Option<Time>, claimer: Option<WorkerId>,
                         ran: Option<Time>, ended: Option<Time>)

  /** The row is created at this time. */
  ghost function Born(r: Run, at: Time): Times {
    Times(at, at, None, None, if RUNNING in r.history then Some(at) else None, if Over(r) then Some(at) else None)
  }

  /** The row goes from r to r' at this time. */
  ghost function Later(t: Times, r: Run, r': Run, at: Time): Times {
    Times(t.created,
          if r'.state != r.state then at else t.changed,
          if r'.state == CLAIMED && r.state != CLAIMED then Some(at) else t.claimed,
          if r'.state == CLAIMED && r.state != CLAIMED then r'.worker else t.claimer,
          if t.ran.None? && RUNNING in r'.history then Some(at) else t.ran,
          if r'.state != r.state && (Over(r') || r'.state == PENDING) then Some(at) else t.ended)
  }

  /** The times of run i, as the history has them. */
  ghost function TimesOf(s: Settings, workers: map<WorkerId, Worker>, steps: seq<Step>, i: RunId): Times
    requires i < |Exec(s, Start(workers), steps).runs|
  {
    var front, last := steps[..|steps|-1], steps[|steps|-1];
    var before, after := Exec(s, Start(workers), front), Exec(s, Start(workers), steps);
    if i < |before.runs| then Later(TimesOf(s, workers, front, i), before.runs[i], after.runs[i], last.at)
    else Born(after.runs[i], last.at)
  }

  /** The columns show those times. A run that is over finished when its state last changed, and no other run is
      finished. The start is that of the first attempt that ran, in both tables. The JobResult keeps the end of the
      last attempt and the worker of the last claim, also of a run that waits for its next attempt. */
  ghost predicate Stamped(r: Run, t: Times) {
    && r.queuedAt == t.created && r.claimedAt == t.claimed
    && r.startedAt == t.ran && r.result.dateStarted == t.ran
    && (if Over(r) then r.finishedAt == Some(t.changed) && t.ended == Some(t.changed) else r.finishedAt.None?)
    && r.result.dateDone == t.ended && r.result.worker == t.claimer && (r.worker.Some? ==> r.worker == t.claimer)
    && (RUNNING in r.history ==> t.ran.Some?)
  }

  lemma FinishStamps(r: Run, outcome: RunState, t: Times, at: Time)
    requires Held(r.state) && outcome in {SUCCESS, FAILURE, TERMINATED} && Stamped(r, t)
    ensures Stamped(Completed(r, outcome, at), Later(t, r, Completed(r, outcome, at), at))
  {
  }

  lemma AbandonStamps(r: Run, t: Times, at: Time)
    requires Held(r.state) && Stamped(r, t)
    ensures Stamped(Abandoned(r, at), Later(t, r, Abandoned(r, at), at))
  {
  }

  lemma MoveStamps(r: Run, m: Move, t: Times, at: Time)
    requires CanMove(r, m) && (m.Stay? || m.Flag? || m.at == at) && Stamped(r, t)
    ensures Guarded(r, m) && Stamped(Moved(r, m), Later(t, r, Moved(r, m), at))
  {
    match m
    case Finish(outcome, _) => FinishStamps(r, outcome, t, at);
    case Abandon(_) => AbandonStamps(r, t, at);
    case _ =>
  }

  lemma BornStamped(d: Definition, parent: Option<RunId>, zone: Option<Zone>, devices: seq<DeviceId>, at: Time)
    ensures var r := NewRun(d, parent, zone, devices, at); Stamped(r, Born(r, at))
    ensures var r := DispatchFailed(NewRun(d, parent, zone, devices, at), at); Stamped(r, Born(r, at))
    ensures Stamped(OpenedParent(d, at), Born(OpenedParent(d, at), at))
  {
  }

  lemma NewRowStamped(s: Settings, db: Db, step: Step, i: RunId)
    requires Inv(db) && |db.runs| <= i < |Next(s, db, step).runs|
    ensures Stamped(Next(s, db, step).runs[i], Born(Next(s, db, step).runs[i], step.at))
  {
    match step
    case SubmitRun(d, zone, at) => BornStamped(d, None, zone, [], at);
    case SubmitShares(d, shares, at) =>
      var k := i - |db.runs| - 1;
      if 0 <= k < |shares| {
        BornStamped(d, Some(|db.runs|), Some(shares[k].zone), shares[k].devices, at);
      } else {
        BornStamped(d, None, None, [], at);
      }
    case _ => SameLength(s, db, step);
  }

  lemma StepStamps(s: Settings, db: Db, step: Step, i: RunId, t: Times)
    requires Inv(db) && i < |db.runs| && Stamped(db.runs[i], t)
    ensures i < |Next(s, db, step).runs|
    ensures Stamped(Next(s, db, step).runs[i], Later(t, db.runs[i], Next(s, db, step).runs[i], step.at))
  {
    var m := RowMove(s, db, step, i);
    MoveStamps(db.runs[i], m, t, step.at);
  }

  /** In every reachable state the timestamps of every run, and its JobResult's worker, are those of the operations
      that they name. */
  lemma {:induction false} StampsAreTimes(s: Settings, workers: map<WorkerId, Worker>, steps: seq<Step>, i: RunId)
    requires i < |Exec(s, Start(workers), steps).runs|
    ensures Stamped(Exec(s, Start(workers), steps).runs[i], TimesOf(s, workers, steps, i))
  {
    var front, last := steps[..|steps|-1], steps[|steps|-1];
    var before := Exec(s, Start(workers), front);
    AlwaysInv(s, workers, front);
    if i < |before.runs| {
      StampsAreTimes(s, workers, front, i);
      StepStamps(s, before, last, i, TimesOf(s, workers, front, i));
    } else {
      NewRowStamped(s, before, last, i);
    }
  }
}
