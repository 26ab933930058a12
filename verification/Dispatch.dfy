/** The dispatch database and what each server operation does to it. Every function here is one
    transaction; the module Dispatcher holds the operations in their own imperative form. */
module Dispatch {
  import opened Wrappers
  import opened Runs

  const SCAN_LIMIT: nat := 20

  datatype Worker = Worker(zone: Zone, enabled: bool, draining: bool, capabilities: set<string>,
                           capacity: int, lastSeen: Option<Time>)

  datatype Settings = Settings(leaseSeconds: nat, workerTtl: nat, touchInterval: nat)

  /** Runs are kept in creation order, which is queued_at order: a run's id is its position. */
  datatype Db = Db(runs: seq<Run>, workers: map<WorkerId, Worker>, tokens: map<TokenId, RunId>, nextToken: TokenId)

  datatype WorkerStatus = Online | Draining | Offline

  function WorkerStatusOf(w: Worker, s: Settings, now: Time): WorkerStatus {
    if w.lastSeen.None? || w.lastSeen.value < now - s.workerTtl || !w.enabled then Offline
    else if w.draining then Draining
    else Online
  }

  /** `Worker.touch`: at most one write of last_seen per interval. */
  function Touched(db: Db, w: WorkerId, s: Settings, now: Time): (db': Db)
    ensures db'.runs == db.runs
  {
    if w in db.workers && (db.workers[w].lastSeen.None? || now - db.workers[w].lastSeen.value >= s.touchInterval)
    then db.(workers := db.workers[w := db.workers[w].(lastSeen := Some(now))])
    else db
  }

  // ---------------------------------------------------------------- rows, tokens and parents

  function Without(tokens: map<TokenId, RunId>, t: Option<TokenId>): map<TokenId, RunId> {
    if t.None? then tokens else tokens - {t.value}
  }

  /** Row i is written; the token table follows the row's token column. */
  function Put(db: Db, i: RunId, r: Run, minted: bool): Db
    requires i < |db.runs|
  {
    Db(db.runs[i := r],
       db.workers,
       if minted then db.tokens[db.nextToken := i]
       else if r.token.None? then Without(db.tokens, db.runs[i].token)
       else db.tokens,
       if minted then db.nextToken + 1 else db.nextToken)
  }

  /** One row makes one move. */
  function Apply(db: Db, i: RunId, m: Move): Db
    requires i < |db.runs| && Guarded(db.runs[i], m)
  {
    Put(db, i, Moved(db.runs[i], m), m.Claim?)
  }

  predicate ChildOf(runs: seq<Run>, c: RunId, p: RunId) {
    c < |runs| && runs[c].parent == Some(p)
  }

  predicate HasChild(runs: seq<Run>, p: RunId) {
    exists c :: 0 <= c < |runs| && ChildOf(runs, c, p)
  }

  predicate AllSettled(runs: seq<Run>, p: RunId) {
    forall c :: 0 <= c < |runs| && ChildOf(runs, c, p) ==> Settled(runs[c].state)
  }

  predicate AllSucceeded(runs: seq<Run>, p: RunId) {
    forall c :: 0 <= c < |runs| && ChildOf(runs, c, p) ==> runs[c].state == SUCCESS
  }

  function Verdict(runs: seq<Run>, p: RunId): RunState {
    if AllSucceeded(runs, p) then SUCCESS else FAILURE
  }

  predicate Unsettled(s: RunState) {
    s in {PENDING, OFFERED, CLAIMED, RUNNING}
  }

  /** `refresh_parent_state` of run i. */
  function Refreshed(db: Db, i: RunId, now: Time): Db
    requires i < |db.runs|
  {
    var p := db.runs[i].parent;
    if p.Some? && p.value < |db.runs| && AllSettled(db.runs, p.value) && Unsettled(db.runs[p.value].state)
    then Apply(db, p.value, Close(Verdict(db.runs, p.value), now))
    else db
  }

  /** A move that may settle a run; when it does, the run's parent is refreshed. */
  function Settle(db: Db, i: RunId, m: Move, now: Time): (db': Db)
    requires i < |db.runs| && Guarded(db.runs[i], m)
    ensures |db'.runs| == |db.runs|
  {
    var next := Apply(db, i, m);
    if Settled(next.runs[i].state) then Refreshed(next, i, now) else next
  }

  function AbandonRun(db: Db, i: RunId, now: Time): Db
    requires i < |db.runs| && Held(db.runs[i].state)
  {
    Settle(db, i, Abandon(now), now)
  }

  // ---------------------------------------------------------------- claiming

  predicate OtherHeld(runs: seq<Run>, i: RunId)
    requires i < |runs|
  {
    exists j :: 0 <= j < |runs| && j != i && Held(runs[j].state) && runs[j].definition == runs[i].definition
  }

  predicate Candidate(r: Run, w: Worker) {
    r.state == PENDING && r.zone == Some(w.zone)
  }

  predicate Eligible(runs: seq<Run>, i: RunId, w: Worker)
    requires i < |runs|
  {
    && runs[i].definition.capabilities <= w.capabilities
    && (runs[i].definition.singleton ==> !OtherHeld(runs, i))
  }

  /** The run `_claim_one` picks when it has passed over `seen` candidates before row i. */
  function Pick(runs: seq<Run>, w: Worker, i: RunId, seen: nat): (pick: Option<RunId>)
    ensures pick.Some? ==> i <= pick.value < |runs| && Candidate(runs[pick.value], w) && Eligible(runs, pick.value, w)
    decreases |runs| - i
  {
    if i >= |runs| || seen >= SCAN_LIMIT then None
    else if !Candidate(runs[i], w) then Pick(runs, w, i + 1, seen)
    else if Eligible(runs, i, w) then Some(i)
    else Pick(runs, w, i + 1, seen + 1)
  }

  function ClaimAt(db: Db, s: Settings, w: WorkerId, i: RunId, now: Time): Db
    requires i < |db.runs|
  {
    Touched(Apply(db, i, Claim(w, now + s.leaseSeconds, db.nextToken, now)), w, s, now)
  }

  function ClaimOne(db: Db, s: Settings, w: WorkerId, now: Time): (Db, Option<RunId>) {
    if w !in db.workers then (db, None) else
    var pick := Pick(db.runs, db.workers[w], 0, 0);
    (if pick.Some? then ClaimAt(db, s, w, pick.value, now) else db, pick)
  }

  predicate HeldBy(r: Run, w: WorkerId) {
    Held(r.state) && r.worker == Some(w)
  }

  function InFlight(runs: seq<Run>, w: WorkerId): nat {
    if runs == [] then 0
    else InFlight(runs[..|runs|-1], w) + (if HeldBy(runs[|runs|-1], w) then 1 else 0)
  }

  function Max(a: int, b: int): int { if a < b then b else a }
  function Min(a: int, b: int): int { if a < b then a else b }

  function FreeCapacity(db: Db, w: WorkerId): nat
    requires w in db.workers
  {
    Max(0, db.workers[w].capacity - InFlight(db.runs, w))
  }

  /** `claim_runs`'s loop: claim one run at a time until the budget is spent or nothing is offered. */
  function ClaimLoop(db: Db, s: Settings, w: WorkerId, budget: nat, now: Time): (Db, seq<RunId>)
    decreases budget
  {
    if budget == 0 then (db, []) else
    var (next, pick) := ClaimOne(db, s, w, now);
    if pick.None? then (db, []) else
    var (last, rest) := ClaimLoop(next, s, w, budget - 1, now);
    (last, [pick.value] + rest)
  }

  function ClaimRuns(db: Db, s: Settings, w: WorkerId, maxOffers: int, now: Time): (Db, seq<RunId>) {
    if w !in db.workers || !db.workers[w].enabled || db.workers[w].draining then (db, [])
    else ClaimLoop(db, s, w, Max(0, Min(maxOffers, FreeCapacity(db, w))), now)
  }

  // ---------------------------------------------------------------- reports from the worker

  datatype RpcCode = UnknownRun | IllegalTransition | LeaseExpired

  datatype StatusReply = Renewal(leaseUntil: Time, cancelRequested: bool) | StatusRefused(code: RpcCode)

  datatype CompleteReply = Accepted | CompleteRefused(code: RpcCode)

  predicate Owns(db: Db, w: WorkerId, i: RunId) {
    i < |db.runs| && db.runs[i].worker == Some(w)
  }

  function ReportStatus(db: Db, s: Settings, w: WorkerId, i: RunId, reported: RunState, now: Time): (Db, StatusReply) {
    if !Owns(db, w, i) then (db, StatusRefused(UnknownRun))
    else if !Held(db.runs[i].state)
    then (db, StatusRefused(if db.runs[i].state == ABANDONED then LeaseExpired else IllegalTransition))
    else
      var until := now + s.leaseSeconds;
      (Touched(Apply(db, i, Renew(reported == RUNNING, until, now)), w, s, now),
       Renewal(until, db.runs[i].result.cancelRequested))
  }

  function CompleteRun(db: Db, s: Settings, w: WorkerId, i: RunId, outcome: RunState, now: Time): (Db, CompleteReply) {
    if outcome !in {SUCCESS, FAILURE, TERMINATED} then (db, CompleteRefused(IllegalTransition))
    else if !Owns(db, w, i) then (db, CompleteRefused(UnknownRun))
    else if db.runs[i].state == outcome then (db, Accepted)
    else if !Held(db.runs[i].state) then (db, CompleteRefused(IllegalTransition))
    else (Touched(Settle(db, i, Finish(outcome, now), now), w, s, now), Accepted)
  }

  // ---------------------------------------------------------------- sweeps over many rows

  /** What a sweep re-checks on a row before it writes it. */
  predicate StillDue(r: Run, m: Move) {
    if m.Abandon? then Held(r.state) else m.Fail? && r.state == PENDING
  }

  /** The rows in `ids`, in that order, each in a transaction of its own. */
  function Sweep(db: Db, ids: seq<RunId>, m: Move, now: Time): (db': Db)
    ensures |db'.runs| == |db.runs|
  {
    if ids == [] then db else
    var before := Sweep(db, ids[..|ids|-1], m, now);
    var i := ids[|ids|-1];
    if i < |before.runs| && StillDue(before.runs[i], m) then Settle(before, i, m, now) else before
  }

  /** The rows below n that satisfy `due`, newest first. */
  function Newest(runs: seq<Run>, n: nat, due: (RunId, Run) -> bool): seq<RunId>
    requires n <= |runs|
  {
    if n == 0 then []
    else if due(n - 1, runs[n-1]) then [n - 1] + Newest(runs, n - 1, due)
    else Newest(runs, n - 1, due)
  }

  lemma {:induction false} NewestLists(runs: seq<Run>, n: nat, due: (RunId, Run) -> bool)
    requires n <= |runs|
    ensures forall i: RunId :: i in Newest(runs, n, due) <==> i < n && due(i, runs[i])
    ensures forall j, k :: 0 <= j < k < |Newest(runs, n, due)| ==> Newest(runs, n, due)[j] > Newest(runs, n, due)[k]
  {
    if n > 0 {
      NewestLists(runs, n - 1, due);
      var rest := Newest(runs, n - 1, due);
      assert forall k :: 0 <= k < |rest| ==> rest[k] in rest;
    }
  }

  function Extended(r: Run, w: WorkerId, isKnown: bool, until: Time): Run {
    if HeldBy(r, w) && isKnown then r.(lease := Some(until)) else r
  }

  function RenewKnown(db: Db, w: WorkerId, known: set<RunId>, until: Time): Db {
    db.(runs := seq(|db.runs|, i requires 0 <= i < |db.runs| => Extended(db.runs[i], w, i in known, until)))
  }

  /** The runs a worker holds and did not name. */
  function Stale(db: Db, w: WorkerId, known: set<RunId>): seq<RunId> {
    Newest(db.runs, |db.runs|, (i, r) => HeldBy(r, w) && i !in known)
  }

  /** `reconcile_in_flight`. */
  function Reconcile(db: Db, s: Settings, w: WorkerId, known: set<RunId>, now: Time): Db {
    RenewKnown(Sweep(db, Stale(db, w, known), Abandon(now), now), w, known, now + s.leaseSeconds)
  }

  /** The worker's own record after its hello. */
  function Introduced(db: Db, s: Settings, w: WorkerId, capacity: int, capabilities: set<string>, now: Time): Db
    requires w in db.workers
  {
    var worker := db.workers[w].(capacity := capacity, capabilities := capabilities);
    Touched(db.(workers := db.workers[w := worker]), w, s, now)
  }

  /** `handle_worker_hello`. */
  function Hello(db: Db, s: Settings, w: WorkerId, capacity: int, capabilities: set<string>,
                 known: set<RunId>, now: Time): Db
  {
    if w !in db.workers then db
    else Reconcile(Introduced(db, s, w, capacity, capabilities, now), s, w, known, now)
  }

  // ---------------------------------------------------------------- the reaper

  predicate Expired(r: Run, now: Time) {
    Held(r.state) && r.lease.Some? && r.lease.value < now
  }

  predicate Overdue(r: Run, now: Time) {
    && r.state == PENDING && r.zone.Some?
    && r.zone.value.failoverPolicy in {WaitForCapacity, FailOver}
    && now - r.queuedAt > r.zone.value.maxWaitSeconds
  }

  function ExpiredIds(runs: seq<Run>, now: Time): seq<RunId> {
    Newest(runs, |runs|, (i, r) => Expired(r, now))
  }

  function OverdueIds(runs: seq<Run>, now: Time): seq<RunId> {
    Newest(runs, |runs|, (i, r) => Overdue(r, now))
  }

  function ReapLeases(db: Db, now: Time): Db {
    Sweep(db, ExpiredIds(db.runs, now), Abandon(now), now)
  }

  function ReapWaits(db: Db, now: Time): Db {
    Sweep(db, OverdueIds(db.runs, now), Fail(now), now)
  }

  /** `reap_expired`: the rows are listed before the first of them is written. */
  function ReapExpired(db: Db, now: Time): Db {
    ReapWaits(ReapLeases(db, now), now)
  }

  // ---------------------------------------------------------------- cancelling

  datatype CancelOutcome =
    | AlreadyOver(state: RunState)
    | ParentCancelled
    | CancelledBeforeClaim
    | WorkerOffline
    | CancelSent(worker: WorkerId)

  predicate Reachable(db: Db, s: Settings, w: Option<WorkerId>, now: Time) {
    w.Some? && w.value in db.workers && WorkerStatusOf(db.workers[w.value], s, now) != Offline
  }

  /** The transaction of `cancel_run`; a parent's children are cancelled afterwards, one by one. */
  function CancelOne(db: Db, s: Settings, i: RunId, now: Time): (result: (Db, CancelOutcome))
    requires i < |db.runs|
    ensures |result.0.runs| == |db.runs|
  {
    var r := db.runs[i];
    if Settled(r.state) then (db, AlreadyOver(r.state))
    else if HasChild(db.runs, i) then (Apply(db, i, Close(TERMINATED, now)), ParentCancelled)
    else if r.state in {PENDING, OFFERED}
    then (Settle(db, i, Withdraw(now), now), CancelledBeforeClaim)
    else if !Reachable(db, s, r.worker, now) then (AbandonRun(db, i, now), WorkerOffline)
    else (Apply(db, i, Flag), CancelSent(r.worker.value))
  }

  /** The children a cancel of their parent goes on to cancel. */
  function OpenChildren(runs: seq<Run>, p: RunId): seq<RunId> {
    Newest(runs, |runs|, (c, r: Run) => r.parent == Some(p) && !Settled(r.state))
  }

  function CancelAll(db: Db, s: Settings, ids: seq<RunId>, now: Time): (db': Db)
    ensures |db'.runs| == |db.runs|
  {
    if ids == [] then db else
    var before := CancelAll(db, s, ids[..|ids|-1], now);
    var c := ids[|ids|-1];
    if c < |before.runs| then CancelOne(before, s, c, now).0 else before
  }

  /** `cancel_run` as a whole. */
  function CancelRun(db: Db, s: Settings, i: RunId, now: Time): (Db, CancelOutcome)
    requires i < |db.runs|
  {
    var (next, outcome) := CancelOne(db, s, i, now);
    (if outcome.ParentCancelled? then CancelAll(next, s, OpenChildren(db.runs, i), now) else next, outcome)
  }

  // ---------------------------------------------------------------- submission

  function NewRun(d: Definition, parent: Option<RunId>, zone: Option<Zone>, devices: seq<DeviceId>, now: Time): Run {
    Run(d, parent, zone, devices, None, PENDING, None, 1, None, now, None, None, None,
        JobResult(StatusPending, None, None, None, None, false), [PENDING])
  }

  /** A run in the zone that was resolved for it; FAILED_DISPATCH when there is none. */
  function Submit(db: Db, d: Definition, zone: Option<Zone>, now: Time): Db {
    var r := NewRun(d, None, zone, [], now);
    db.(runs := db.runs + [if zone.Some? then r else DispatchFailed(r, now)])
  }

  function OpenedParent(d: Definition, now: Time): Run {
    Synced(Wrote(NewRun(d, None, None, [], now), RUNNING).(startedAt := Some(now)), now)
  }

  datatype Share = Share(zone: Zone, devices: seq<DeviceId>)

  function Children(d: Definition, parent: RunId, shares: seq<Share>, now: Time): (rows: seq<Run>)
    ensures |rows| == |shares|
  {
    seq(|shares|, k requires 0 <= k < |shares| => NewRun(d, Some(parent), Some(shares[k].zone), shares[k].devices, now))
  }

  /** A parent and one child per share; without shares the submission failed. */
  function SubmitFanOut(db: Db, d: Definition, shares: seq<Share>, now: Time): Db {
    if shares == [] then Submit(db, d, None, now)
    else db.(runs := db.runs + [OpenedParent(d, now)] + Children(d, |db.runs|, shares, now))
  }
}
