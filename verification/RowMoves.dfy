/** Every operation, seen from one row: each step moves each row by at most one lawful move, and only
    the operations entitled to a move make it. */
module RowMoves {
  import opened Wrappers
  import opened Runs
  import opened Dispatch
  import opened Invariant
  import opened Sweeps
  import opened History

  /** Who may cause which move of row i, and at what time. */
  ghost predicate Entitled(s: Settings, db: Db, step: Step, i: RunId, m: Move)
    requires i < |db.runs|
  {
    (m.Stay? || m.Flag? || m.at == step.at) &&
    match m
    case Stay => true
    case Claim(w, until, _, at) =>
      step.ClaimNext? && step.w == w && ClaimOne(db, s, w, step.at).1 == Some(i) && until == at + s.leaseSeconds
    case Renew(_, _, _) =>
      ((step.Status? && step.i == i) || (step.SayHello? && i in step.known)) && HeldBy(db.runs[i], step.w)
    case Finish(outcome, _) => step.Complete? && step.i == i && step.outcome == outcome && HeldBy(db.runs[i], step.w)
    case Abandon(_) =>
      || ((step.Reap? || step.CancelRow?) && step.i == i)
      || (step.SayHello? && HeldBy(db.runs[i], step.w) && i !in step.known)
    case Fail(_) => step.TimeOut? && step.i == i
    case Withdraw(_) => step.CancelRow? && step.i == i
    case Flag => step.CancelRow? && step.i == i
    case Close(verdict, _) =>
      if verdict == TERMINATED then step.CancelRow? && step.i == i && HasChild(db.runs, i)
      else verdict == Verdict(Next(s, db, step).runs, i) && AllSettled(Next(s, db, step).runs, i)
  }

  ghost predicate MovesBy(r: Run, r': Run, m: Move) {
    CanMove(r, m) && Guarded(r, m) && r' == Moved(r, m)
  }

  /** A settling move of row j, as row i sees it. */
  lemma SettleMove(db: Db, j: RunId, mj: Move, i: RunId, now: Time) returns (m: Move)
    requires Inv(db) && j < |db.runs| && i < |db.runs| && CanMove(db.runs[j], mj) && Settling(mj)
    ensures |Settle(db, j, mj, now).runs| == |db.runs|
    ensures MovesBy(db.runs[i], Settle(db, j, mj, now).runs[i], m)
    ensures i == j ==> m == mj
    ensures i != j ==> m == Stay || (m == Close(Verdict(Settle(db, j, mj, now).runs, i), now)
                                     && AllSettled(Settle(db, j, mj, now).runs, i))
  {
    SettleRows(db, j, mj, now);
    m := ViewMove(db.runs, Settle(db, j, mj, now).runs, j, mj, i, now);
  }

  lemma ViewMove(runs: seq<Run>, runs': seq<Run>, j: RunId, mj: Move, i: RunId, now: Time) returns (m: Move)
    requires i < |runs| == |runs'| && j < |runs| && MovesBy(runs[j], runs'[j], mj)
    requires i != j && runs[i].zone.Some? ==> runs'[i] == runs[i]
    requires runs[i].zone.None? ==> runs'[i] == ParentView(runs[i], runs', i, now)
    requires runs[j].zone.Some?
    ensures MovesBy(runs[i], runs'[i], m)
    ensures i == j ==> m == mj
    ensures i != j ==> m == Stay || (m == Close(Verdict(runs', i), now) && AllSettled(runs', i))
  {
    if i == j { m := mj; }
    else if runs'[i] == runs[i] { m := Stay; }
    else { m := Close(Verdict(runs', i), now); }
  }

  /** What the first half of hello's reconciliation makes of row i. */
  ghost predicate StaleRowSwept(runs: seq<Run>, mid: seq<Run>, w: WorkerId, known: set<RunId>, i: RunId, now: Time) {
    && |mid| == |runs| && i < |runs|
    && (HeldBy(runs[i], w) ==> runs[i].zone.Some? && mid[i] == if i in known then runs[i] else Abandoned(runs[i], now))
    && (!HeldBy(runs[i], w) ==>
          mid[i] == runs[i] || (runs[i].zone.None? && mid[i] == ParentView(runs[i], mid, i, now)))
  }

  lemma StaleRow(db: Db, w: WorkerId, known: set<RunId>, i: RunId, now: Time)
    requires Inv(db) && i < |db.runs|
    ensures StaleRowSwept(db.runs, Sweep(db, Stale(db, w, known), Abandon(now), now).runs, w, known, i, now)
  {
    StaleListed(db, w, known);
    StaleSwept(db, w, known, now);
    assert RowOk(db.runs[i]);
  }

  lemma ExtendedSame(r: Run, w: WorkerId, isKnown: bool, until: Time, now: Time)
    requires Held(r.state)
    ensures Extended(Abandoned(r, now), w, isKnown, until) == Abandoned(r, now) && !Held(Abandoned(r, now).state)
  {
  }

  /** Hello's reconciliation, as row i sees it: dropped, renewed, or closed by its children. */
  lemma ExtendMove(runs: seq<Run>, swept: Db, d: Db, w: WorkerId, known: set<RunId>, i: RunId, until: Time, now: Time)
    returns (m: Move)
    requires StaleRowSwept(runs, swept.runs, w, known, i, now) && LeasesExtended(swept, d, w, known, until)
    ensures var last := d.runs;
      && |last| == |runs| && MovesBy(runs[i], last[i], m)
      && (HeldBy(runs[i], w) ==> m == if i in known then Renew(false, until, now) else Abandon(now))
      && (!HeldBy(runs[i], w) ==> m == Stay || (m == Close(Verdict(last, i), now) && AllSettled(last, i)))
      && (HeldBy(runs[i], w) && i in known ==> last[i] == runs[i].(lease := Some(until)))
      && (HeldBy(runs[i], w) && i !in known ==> !HeldBy(last[i], w))
  {
    var mid, last := swept.runs, d.runs;
    assert last[i] == Extended(mid[i], w, i in known, until);
    if HeldBy(runs[i], w) {
      if i in known {
        m := Renew(false, until, now);
      } else {
        m := Abandon(now);
        ExtendedSame(runs[i], w, false, until, now);
      }
    } else if mid[i] == runs[i] {
      m := Stay;
    } else {
      m := Close(Verdict(mid, i), now);
      assert SameChildren(mid, last, i);
      SameView(runs[i], mid, last, i, now);
    }
  }

  // ---------------------------------------------------------------- every step

  /** Each step moves each existing row by one move that the step is entitled to. */
  lemma RowMove(s: Settings, db: Db, step: Step, i: RunId) returns (m: Move)
    requires Inv(db) && i < |db.runs|
    ensures i < |Next(s, db, step).runs|
    ensures MovesBy(db.runs[i], Next(s, db, step).runs[i], m) && Entitled(s, db, step, i, m)
  {
    match step
    case ClaimNext(_, _) => m := ClaimMove(s, db, step, i);
    case Status(_, _, _, _) => m := StatusMove(s, db, step, i);
    case Complete(_, _, _, _) => m := CompleteMove(s, db, step, i);
    case Reap(_, _) => m := ReaperMove(s, db, step, i);
    case TimeOut(_, _) => m := ReaperMove(s, db, step, i);
    case CancelRow(_, _) => m := CancelMove(s, db, step, i);
    case SayHello(_, _, _, _, _) => m := HelloMove(s, db, step, i);
    case _ => m := Stay;
  }

  ghost predicate Explained(s: Settings, db: Db, step: Step, i: RunId, m: Move)
    requires i < |db.runs|
  {
    && i < |Next(s, db, step).runs|
    && MovesBy(db.runs[i], Next(s, db, step).runs[i], m) && Entitled(s, db, step, i, m)
  }

  lemma ClaimMove(s: Settings, db: Db, step: Step, i: RunId) returns (m: Move)
    requires i < |db.runs| && step.ClaimNext?
    ensures Explained(s, db, step, i, m)
  {
    m := if ClaimOne(db, s, step.w, step.at).1 == Some(i)
         then Claim(step.w, step.at + s.leaseSeconds, db.nextToken, step.at) else Stay;
  }

  lemma StatusMove(s: Settings, db: Db, step: Step, i: RunId) returns (m: Move)
    requires Inv(db) && i < |db.runs| && step.Status?
    ensures Explained(s, db, step, i, m)
  {
    m := Stay;
    if i == step.i && Owns(db, step.w, i) && Held(db.runs[i].state) {
      OwnedHasZone(db, step.w, i);
      m := Renew(step.reported == RUNNING, step.at + s.leaseSeconds, step.at);
    }
  }

  /** A step whose effect on the rows is one settling move. */
  lemma SettlingStep(s: Settings, db: Db, step: Step, j: RunId, mj: Move, i: RunId) returns (m: Move)
    requires Inv(db) && i < |db.runs| && j < |db.runs| && CanMove(db.runs[j], mj) && Settling(mj)
    requires Next(s, db, step).runs == Settle(db, j, mj, step.at).runs
    requires Entitled(s, db, step, j, mj)
    ensures Explained(s, db, step, i, m)
  {
    m := SettleMove(db, j, mj, i, step.at);
  }

  lemma CompleteMove(s: Settings, db: Db, step: Step, i: RunId) returns (m: Move)
    requires Inv(db) && i < |db.runs| && step.Complete?
    ensures Explained(s, db, step, i, m)
  {
    if step.outcome in {SUCCESS, FAILURE, TERMINATED} && Owns(db, step.w, step.i) && Held(db.runs[step.i].state) {
      OwnedHasZone(db, step.w, step.i);
      m := SettlingStep(s, db, step, step.i, Finish(step.outcome, step.at), i);
    } else {
      m := Stay;
    }
  }

  lemma ReaperMove(s: Settings, db: Db, step: Step, i: RunId) returns (m: Move)
    requires Inv(db) && i < |db.runs| && (step.Reap? || step.TimeOut?)
    ensures Explained(s, db, step, i, m)
  {
    if step.Reap? && step.i < |db.runs| && Held(db.runs[step.i].state) && db.runs[step.i].lease.Some? {
      assert RowOk(db.runs[step.i]);
      m := SettlingStep(s, db, step, step.i, Abandon(step.at), i);
    } else if step.TimeOut? && step.i < |db.runs| && Overdue(db.runs[step.i], step.at) {
      m := SettlingStep(s, db, step, step.i, Fail(step.at), i);
    } else {
      m := Stay;
    }
  }

  lemma CancelMove(s: Settings, db: Db, step: Step, i: RunId) returns (m: Move)
    requires Inv(db) && i < |db.runs| && step.CancelRow?
    ensures Explained(s, db, step, i, m)
  {
    m := Stay;
    if step.i < |db.runs| && !Settled(db.runs[step.i].state) {
      if HasChild(db.runs, step.i) {
        ParentHasNoZone(db, step.i);
        if i == step.i { m := Close(TERMINATED, step.at); }
      } else {
        m := CancelRunMove(s, db, step, i);
      }
    }
  }

  lemma CancelRunMove(s: Settings, db: Db, step: Step, i: RunId) returns (m: Move)
    requires Inv(db) && i < |db.runs| && step.CancelRow? && step.i < |db.runs|
    requires !Settled(db.runs[step.i].state) && !HasChild(db.runs, step.i)
    ensures Explained(s, db, step, i, m)
  {
    var j, r := step.i, db.runs[step.i];
    assert RowOk(r);
    if r.state == PENDING {
      m := SettlingStep(s, db, step, j, Withdraw(step.at), i);
    } else {
      ChildlessHeld(db, j);
      if Reachable(db, s, r.worker, step.at) {
        m := if i == j then Flag else Stay;
      } else {
        m := SettlingStep(s, db, step, j, Abandon(step.at), i);
      }
    }
  }

  /** A hello renews what the worker knows of and drops the rest. */
  ghost function HelloTo(s: Settings, step: Step, i: RunId): Move
    requires step.SayHello?
  {
    if i in step.known then Renew(false, step.at + s.leaseSeconds, step.at) else Abandon(step.at)
  }

  /** The database between the two halves of the reconciliation. */
  ghost function Halfway(s: Settings, db: Db, step: Step): Db
    requires step.SayHello? && step.w in db.workers
  {
    var seen := Introduced(db, s, step.w, step.capacity, step.capabilities, step.at);
    Sweep(seen, Stale(seen, step.w, step.known), Abandon(step.at), step.at)
  }

  lemma HelloExtends(s: Settings, db: Db, step: Step)
    requires step.SayHello? && step.w in db.workers
    ensures LeasesExtended(Halfway(s, db, step), Next(s, db, step), step.w, step.known, step.at + s.leaseSeconds)
  {
    ReconcileIs(Introduced(db, s, step.w, step.capacity, step.capabilities, step.at), s, step.w, step.known, step.at);
  }

  lemma HelloSweeps(s: Settings, db: Db, step: Step, i: RunId)
    requires Inv(db) && i < |db.runs| && step.SayHello? && step.w in db.workers
    ensures StaleRowSwept(db.runs, Halfway(s, db, step).runs, step.w, step.known, i, step.at)
  {
    IntroducedKeeps(db, s, step.w, step.capacity, step.capabilities, step.at);
    StaleRow(Introduced(db, s, step.w, step.capacity, step.capabilities, step.at), step.w, step.known, i, step.at);
  }

  lemma HelloMove(s: Settings, db: Db, step: Step, i: RunId) returns (m: Move)
    requires Inv(db) && i < |db.runs| && step.SayHello?
    ensures Explained(s, db, step, i, m)
    ensures step.w in db.workers && HeldBy(db.runs[i], step.w) ==> m == HelloTo(s, step, i)
    ensures var r' := Next(s, db, step).runs[i];
      step.w in db.workers && HeldBy(db.runs[i], step.w) ==>
        if i in step.known then r' == db.runs[i].(lease := Some(step.at + s.leaseSeconds)) else !HeldBy(r', step.w)
  {
    if step.w in db.workers {
      HelloExtends(s, db, step);
      HelloSweeps(s, db, step, i);
      m := RenewedMove(s, db, step, i, Halfway(s, db, step));
    } else {
      m := Stay;
    }
  }

  lemma RenewedMove(s: Settings, db: Db, step: Step, i: RunId, swept: Db) returns (m: Move)
    requires i < |db.runs| && step.SayHello?
    requires LeasesExtended(swept, Next(s, db, step), step.w, step.known, step.at + s.leaseSeconds)
    requires StaleRowSwept(db.runs, swept.runs, step.w, step.known, i, step.at)
    ensures Explained(s, db, step, i, m)
    ensures HeldBy(db.runs[i], step.w) ==> m == HelloTo(s, step, i)
    ensures var r' := Next(s, db, step).runs[i];
      && (HeldBy(db.runs[i], step.w) && i in step.known ==> r' == db.runs[i].(lease := Some(step.at + s.leaseSeconds)))
      && (HeldBy(db.runs[i], step.w) && i !in step.known ==> !HeldBy(r', step.w))
  {
    m := ExtendMove(db.runs, swept, Next(s, db, step), step.w, step.known, i, step.at + s.leaseSeconds, step.at);
  }
}
