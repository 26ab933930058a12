/** The server's records of its workers: what each operation writes there, and which workers are taken for offline. */
module WorkerRecords {
  import opened Wrappers
  import opened Runs
  import opened Dispatch
  import opened Views
  import opened Invariant
  import opened History
  import opened Submission

  /** This step is one on which the server hears from worker w: a claim that is given a run, a report or a completion
      that is accepted for a run the worker has, a hello, any authenticated request, or the enrolment itself. */
  ghost predicate Contact(s: Settings, db: Db, step: Step, w: WorkerId) {
    match step
    case ClaimNext(v, at) => v == w && ClaimOne(db, s, w, at).1.Some?
    case Status(v, i, _, _) => v == w && IsWith(db, i, w)
    case Complete(v, i, outcome, _) => v == w && IsWith(db, i, w) && outcome in {SUCCESS, FAILURE, TERMINATED}
    case SayHello(v, _, _, _, _) => v == w && w in db.workers
    case Heard(v, _) => v == w && w in db.workers && db.workers[w].enabled
    case Enroll(v, _, _) => v == w && w !in db.workers
    case _ => false
  }

  /** What a step makes of the record of a worker that is there already. */
  ghost predicate Recorded(s: Settings, db: Db, step: Step, w: WorkerId, r: Worker, r': Worker) {
    && r'.zone == r.zone
    && (if step.SayHello? && step.w == w
        then r'.capacity == step.capacity && r'.capabilities == step.capabilities
        else r'.capacity == r.capacity && r'.capabilities == r.capabilities)
    && (if step.Switch? && step.w == w
        then r'.enabled == step.enabled && r'.draining == step.draining
        else r'.enabled == r.enabled && r'.draining == r.draining)
    && (if Contact(s, db, step, w) && (r.lastSeen.None? || step.at - r.lastSeen.value >= s.touchInterval)
        then r'.lastSeen == Some(step.at) else r'.lastSeen == r.lastSeen)
  }

  lemma SettleKeepsWorkers(db: Db, i: RunId, m: Move, now: Time)
    requires i < |db.runs| && Guarded(db.runs[i], m)
    ensures Settle(db, i, m, now).workers == db.workers
  {
  }

  lemma {:induction false} SweepKeepsWorkers(db: Db, ids: seq<RunId>, m: Move, now: Time)
    ensures Sweep(db, ids, m, now).workers == db.workers
  {
    if ids != [] { SweepKeepsWorkers(db, ids[..|ids|-1], m, now); }
  }

  lemma HelloWorkers(s: Settings, db: Db, w: WorkerId, capacity: int, capabilities: set<string>, known: set<RunId>,
                     at: Time)
    requires w in db.workers
    ensures Hello(db, s, w, capacity, capabilities, known, at).workers
         == Introduced(db, s, w, capacity, capabilities, at).workers
  {
    var seen := Introduced(db, s, w, capacity, capabilities, at);
    SweepKeepsWorkers(seen, Stale(seen, w, known), Abandon(at), at);
  }

  lemma ClaimRecord(s: Settings, db: Db, step: Step, w: WorkerId)
    requires step.ClaimNext? && w in db.workers
    ensures w in Next(s, db, step).workers && Recorded(s, db, step, w, db.workers[w], Next(s, db, step).workers[w])
  {
  }

  lemma StatusRecord(s: Settings, db: Db, step: Step, w: WorkerId)
    requires step.Status? && w in db.workers
    ensures w in Next(s, db, step).workers && Recorded(s, db, step, w, db.workers[w], Next(s, db, step).workers[w])
  {
  }

  lemma CompleteWorkers(s: Settings, db: Db, w: WorkerId, i: RunId, outcome: RunState, at: Time)
    ensures CompleteRun(db, s, w, i, outcome, at).0.workers ==
      if IsWith(db, i, w) && outcome in {SUCCESS, FAILURE, TERMINATED} then Touched(db, w, s, at).workers
      else db.workers
  {
    if IsWith(db, i, w) && outcome in {SUCCESS, FAILURE, TERMINATED} {
      SettleKeepsWorkers(db, i, Finish(outcome, at), at);
    }
  }

  lemma CompleteRecord(s: Settings, db: Db, step: Step, w: WorkerId)
    requires step.Complete? && w in db.workers
    ensures w in Next(s, db, step).workers && Recorded(s, db, step, w, db.workers[w], Next(s, db, step).workers[w])
  {
    CompleteWorkers(s, db, step.w, step.i, step.outcome, step.at);
  }

  lemma HelloRecord(s: Settings, db: Db, step: Step, w: WorkerId)
    requires step.SayHello? && w in db.workers
    ensures w in Next(s, db, step).workers && Recorded(s, db, step, w, db.workers[w], Next(s, db, step).workers[w])
  {
    if step.w in db.workers { HelloWorkers(s, db, step.w, step.capacity, step.capabilities, step.known, step.at); }
  }

  lemma OtherRecord(s: Settings, db: Db, step: Step, w: WorkerId)
    requires !step.ClaimNext? && !step.Status? && !step.Complete? && !step.SayHello? && w in db.workers
    ensures w in Next(s, db, step).workers && Recorded(s, db, step, w, db.workers[w], Next(s, db, step).workers[w])
  {
  }

  /** Every operation and every worker: a hello writes what the worker announced; switching writes its switches; and
      last_seen moves only when the server hears from that worker, and then unless it was written too recently. */
  lemma RecordStep(s: Settings, db: Db, step: Step, w: WorkerId)
    requires w in db.workers
    ensures w in Next(s, db, step).workers && Recorded(s, db, step, w, db.workers[w], Next(s, db, step).workers[w])
  {
    match step
    case ClaimNext(_, _) => ClaimRecord(s, db, step, w);
    case Status(_, _, _, _) => StatusRecord(s, db, step, w);
    case Complete(_, _, _, _) => CompleteRecord(s, db, step, w);
    case SayHello(_, _, _, _, _) => HelloRecord(s, db, step, w);
    case _ => OtherRecord(s, db, step, w);
  }

  /** Only an enrolment brings a new worker, and it has just been seen. */
  lemma EnrollStep(s: Settings, db: Db, step: Step, w: WorkerId)
    requires w !in db.workers
    ensures w in Next(s, db, step).workers <==> step.Enroll? && step.w == w
    ensures step.Enroll? && step.w == w ==> Next(s, db, step).workers[w] == step.worker.(lastSeen := Some(step.at))
  {
    match step
    case SayHello(v, capacity, capabilities, known, at) =>
      if v in db.workers { HelloWorkers(s, db, v, capacity, capabilities, known, at); }
    case _ =>
  }

  // ---------------------------------------------------------------- when a worker was last heard from

  /** When the server last heard from worker w. */
  ghost function LastContact(s: Settings, workers: map<WorkerId, Worker>, steps: seq<Step>, w: WorkerId): Option<Time> {
    if steps == [] then (if w in workers then workers[w].lastSeen else None) else
    var front, last := steps[..|steps|-1], steps[|steps|-1];
    if Contact(s, Exec(s, Start(workers), front), last, w) then Some(last.at) else LastContact(s, workers, front, w)
  }

  /** The workers that were there before the history had been seen by then, if at all. */
  ghost predicate SeenBefore(workers: map<WorkerId, Worker>, steps: seq<Step>, w: WorkerId) {
    w in workers && workers[w].lastSeen.Some? && steps != [] ==> workers[w].lastSeen.value <= steps[0].at
  }

  lemma {:induction false} ContactIsPast(s: Settings, workers: map<WorkerId, Worker>, steps: seq<Step>, w: WorkerId,
                                         now: Time)
    requires forall k :: 0 <= k < |steps| ==> steps[k].at <= now
    requires w in workers && workers[w].lastSeen.Some? ==> workers[w].lastSeen.value <= now
    ensures LastContact(s, workers, steps, w).Some? ==> LastContact(s, workers, steps, w).value <= now
  {
    if steps != [] { ContactIsPast(s, workers, steps[..|steps|-1], w, now); }
  }

  /** last_seen is the last contact, or less than one touch interval before it. */
  ghost predicate SeenAt(s: Settings, seen: Option<Time>, contact: Option<Time>) {
    && (seen.Some? <==> contact.Some?)
    && (seen.Some? ==> seen == contact || 0 <= contact.value - seen.value < s.touchInterval)
  }

  lemma SeenStep(s: Settings, db: Db, step: Step, w: WorkerId, contact: Option<Time>)
    requires w in db.workers && SeenAt(s, db.workers[w].lastSeen, contact)
    requires contact.Some? ==> contact.value <= step.at
    ensures w in Next(s, db, step).workers
    ensures SeenAt(s, Next(s, db, step).workers[w].lastSeen, if Contact(s, db, step, w) then Some(step.at) else contact)
  {
    RecordStep(s, db, step, w);
  }

  lemma {:induction false} SeenIs(s: Settings, workers: map<WorkerId, Worker>, steps: seq<Step>, w: WorkerId)
    requires Ticking(steps) && SeenBefore(workers, steps, w) && w in Exec(s, Start(workers), steps).workers
    ensures SeenAt(s, Exec(s, Start(workers), steps).workers[w].lastSeen, LastContact(s, workers, steps, w))
  {
    if steps != [] {
      var front, last := steps[..|steps|-1], steps[|steps|-1];
      var before := Exec(s, Start(workers), front);
      if w in before.workers {
        SeenIs(s, workers, front, w);
        ContactIsPast(s, workers, front, w, last.at);
        SeenStep(s, before, last, w, LastContact(s, workers, front, w));
      } else {
        EnrollStep(s, before, last, w);
      }
    }
  }

  /** While the clock does not go back, in every reachable state: a worker that is disabled, was never heard from,
      or was not heard from for longer than its time to live is offline; an enabled one that was heard from within
      it, less the interval at which such news is recorded, is draining or online, as it is switched. */
  lemma SilentIsOffline(s: Settings, workers: map<WorkerId, Worker>, steps: seq<Step>, w: WorkerId, now: Time)
    requires Ticking(steps) && SeenBefore(workers, steps, w) && w in Exec(s, Start(workers), steps).workers
    ensures var r, contact := Exec(s, Start(workers), steps).workers[w], LastContact(s, workers, steps, w);
      && (!r.enabled || contact.None? || now > contact.value + s.workerTtl ==> WorkerStatusOf(r, s, now) == Offline)
      && (r.enabled && contact.Some? && now + s.touchInterval <= contact.value + s.workerTtl ==>
            WorkerStatusOf(r, s, now) == if r.draining then Draining else Online)
  {
    SeenIs(s, workers, steps, w);
  }

  /** So a cancel of a claimed or running run is not sent to such a worker: its run is abandoned instead. */
  lemma SilentIsNotAsked(s: Settings, workers: map<WorkerId, Worker>, steps: seq<Step>, w: WorkerId, i: RunId,
                         now: Time)
    requires Ticking(steps) && SeenBefore(workers, steps, w) && w in Exec(s, Start(workers), steps).workers
    requires IsWith(Exec(s, Start(workers), steps), i, w)
    requires var contact := LastContact(s, workers, steps, w); contact.None? || now > contact.value + s.workerTtl
    ensures CancelOne(Exec(s, Start(workers), steps), s, i, now).1 == WorkerOffline
  {
    SilentIsOffline(s, workers, steps, w, now);
    AlwaysInv(s, workers, steps);
    NotAParent(Exec(s, Start(workers), steps), w, i);
  }

  lemma NotAParent(db: Db, w: WorkerId, i: RunId)
    requires Inv(db) && IsWith(db, i, w)
    ensures !HasChild(db.runs, i)
  {
    OwnedHasZone(db, w, i);
    if HasChild(db.runs, i) { ParentHasNoZone(db, i); }
  }
}
