/** The run row and the ways one row may change: the state machine of RemoteJobRun, the mirror it
    keeps in its core JobResult, and the facts every row obeys whatever happens to it. */
module Runs {
  import opened Wrappers

  type Time = int
  type RunId = nat
  type TokenId = nat
  type WorkerId = string
  type DeviceId = string

  datatype RunState =
    | PENDING | OFFERED | CLAIMED | RUNNING | SUCCESS | FAILURE
    | TERMINATED | ABANDONED | CANCELLED | FAILED_DISPATCH

  datatype ResultStatus = StatusPending | StatusStarted | StatusSuccess | StatusFailure | StatusRevoked

  datatype Revocation = RevokedTerminated | RevokedAbandoned

  datatype FailoverPolicy = FailFast | WaitForCapacity | FailOver

  /** An execution zone. Zones and definitions do not change during a history, so a foreign key is
      modelled by the value it points to. */
  datatype Zone = Zone(name: string, priority: nat, enabled: bool, failoverPolicy: FailoverPolicy,
                       maxWaitSeconds: nat, failoverTargets: seq<string>)

  datatype ZonePolicy = Pinned | AnyZone | PerDevice | FanOut

  datatype Definition = Definition(name: string, enabled: bool, singleton: bool, retryMax: nat,
                                   capabilities: set<string>, zonePolicy: ZonePolicy,
                                   defaultZone: Option<Zone>, requiresZoneLocal: bool,
                                   timeoutSeconds: nat)

  datatype JobResult = JobResult(status: ResultStatus, worker: Option<WorkerId>,
                                 dateStarted: Option<Time>, dateDone: Option<Time>,
                                 revocation: Option<Revocation>, cancelRequested: bool)

  /** `history` lists every value ever written to the state column, oldest first. The application
      does not store it; it is what an audit of the column's writes would show. */
  datatype Run = Run(definition: Definition, parent: Option<RunId>, zone: Option<Zone>,
                     devices: seq<DeviceId>, worker: Option<WorkerId>, state: RunState,
                     lease: Option<Time>, attempt: nat, token: Option<TokenId>, queuedAt: Time,
                     claimedAt: Option<Time>, startedAt: Option<Time>, finishedAt: Option<Time>,
                     result: JobResult, history: seq<RunState>)

  // ---------------------------------------------------------------- the state machine

  predicate Terminal(s: RunState) {
    s in {SUCCESS, FAILURE, TERMINATED, CANCELLED, FAILED_DISPATCH}
  }

  /** `is_terminal`: ABANDONED counts, although the retry policy may leave it. */
  predicate Settled(s: RunState) {
    Terminal(s) || s == ABANDONED
  }

  predicate Held(s: RunState) {
    s == CLAIMED || s == RUNNING
  }

  predicate Legal(before: RunState, after: RunState) {
    match before
    case PENDING => after in {OFFERED, CLAIMED, CANCELLED, FAILED_DISPATCH}
    case OFFERED => after in {CLAIMED, PENDING, CANCELLED}
    case CLAIMED => after in {RUNNING, PENDING, ABANDONED, TERMINATED}
    case RUNNING => after in {SUCCESS, FAILURE, TERMINATED, ABANDONED}
    case ABANDONED => after == PENDING
    case _ => false
  }

  function StatusOf(s: RunState): ResultStatus {
    match s
    case PENDING => StatusPending
    case OFFERED => StatusPending
    case CLAIMED => StatusPending
    case RUNNING => StatusStarted
    case SUCCESS => StatusSuccess
    case FAILURE => StatusFailure
    case TERMINATED => StatusRevoked
    case ABANDONED => StatusRevoked
    case CANCELLED => StatusFailure
    case FAILED_DISPATCH => StatusFailure
  }

  // ---------------------------------------------------------------- writing one row

  function Stamp(t: Option<Time>, now: Time): Option<Time> {
    if t.Some? then t else Some(now)
  }

  /** The JobResult after `sync_job_result`. */
  function Synced(r: Run, now: Time): Run {
    r.(result := r.result.(
      status := StatusOf(r.state),
      worker := if r.worker.Some? then r.worker else r.result.worker,
      dateStarted := if r.state == RUNNING && r.result.dateStarted.None?
                     then Stamp(r.startedAt, now) else r.result.dateStarted,
      dateDone := if Settled(r.state) then Stamp(r.finishedAt, now) else r.result.dateDone,
      revocation := if r.state == TERMINATED then Some(RevokedTerminated)
                    else if r.state == ABANDONED then Some(RevokedAbandoned)
                    else r.result.revocation))
  }

  /** A direct assignment to the state column. */
  function Wrote(r: Run, s: RunState): Run {
    r.(state := s, history := r.history + [s])
  }

  /** `transition`, when it does not raise. */
  function Transitioned(r: Run, s: RunState, now: Time): Run
    requires r.state == s || Legal(r.state, s)
  {
    if r.state == s then r
    else
      var w := Wrote(r, s);
      Synced(w.(claimedAt := if s == CLAIMED then Stamp(r.claimedAt, now) else r.claimedAt,
                startedAt := if s == RUNNING then Stamp(r.startedAt, now) else r.startedAt,
                finishedAt := if Settled(s) then Some(now) else r.finishedAt), now)
  }

  /** `_claim_one`'s direct writes, and the token minted in the same transaction. */
  function Claimed(r: Run, w: WorkerId, lease: Time, token: TokenId, now: Time): Run {
    var claimed := r.(worker := Some(w), claimedAt := Some(now), lease := Some(lease));
    Synced(Wrote(claimed, CLAIMED), now).(token := Some(token))
  }

  /** The row after `report_status` was accepted. */
  function Renewed(r: Run, toRunning: bool, lease: Time, now: Time): Run {
    (if toRunning && r.state == CLAIMED then Transitioned(r, RUNNING, now) else r).(lease := Some(lease))
  }

  /** The row after `complete_run` was accepted for the first time. */
  function Completed(r: Run, s: RunState, now: Time): Run
    requires Held(r.state) && s in {SUCCESS, FAILURE, TERMINATED}
  {
    var started := if r.state == CLAIMED && s != TERMINATED then Transitioned(r, RUNNING, now) else r;
    Transitioned(started, s, now).(token := None)
  }

  predicate RetriesLeft(r: Run) {
    r.attempt < r.definition.retryMax + 1
  }

  /** The row after `abandon_run`: back in the queue while attempts remain, ABANDONED for good otherwise. */
  function Abandoned(r: Run, now: Time): Run
    requires Held(r.state)
  {
    var a := Transitioned(r, ABANDONED, now).(token := None);
    if RetriesLeft(r)
    then Synced(Wrote(a.(attempt := r.attempt + 1, worker := None, lease := None, finishedAt := None), PENDING), now)
    else a
  }

  /** A run that waited out its zone's budget, or could not be dispatched at submission. */
  function DispatchFailed(r: Run, now: Time): Run {
    Synced(Wrote(r, FAILED_DISPATCH).(finishedAt := Some(now)), now)
  }

  /** A direct write of an end state to a fan-out parent: by its last child, or by cancel. */
  function Closed(r: Run, s: RunState, now: Time): Run {
    Synced(Wrote(r, s).(finishedAt := Some(now)), now)
  }

  function Cancelled(r: Run, now: Time): Run
    requires Legal(r.state, CANCELLED)
  {
    Transitioned(r, CANCELLED, now).(token := None)
  }

  function Flagged(r: Run): Run {
    r.(result := r.result.(cancelRequested := true))
  }

  // ---------------------------------------------------------------- every way a row changes

  datatype Move =
    | Stay
    | Claim(w: WorkerId, until: Time, tok: TokenId, at: Time)
    | Renew(toRunning: bool, until: Time, at: Time)
    | Finish(outcome: RunState, at: Time)
    | Abandon(at: Time)
    | Fail(at: Time)
    | Withdraw(at: Time)
    | Flag
    | Close(verdict: RunState, at: Time)

  /** What the code itself checks before a move: no guarded `transition` raises. */
  predicate Guarded(r: Run, m: Move) {
    match m
    case Finish(s, _) => Held(r.state) && s in {SUCCESS, FAILURE, TERMINATED}
    case Abandon(_) => Held(r.state)
    case Withdraw(_) => Legal(r.state, CANCELLED)
    case _ => true
  }

  /** Which moves the rows of a reachable state make. `Close` is for fan-out parents, which have no zone; the others but
      `Stay` are for runs that have one. */
  predicate CanMove(r: Run, m: Move) {
    match m
    case Stay => true
    case Claim(_, _, _, _) => r.zone.Some? && r.state == PENDING
    case Renew(_, _, _) => r.zone.Some? && Held(r.state) && r.worker.Some?
    case Finish(s, _) => r.zone.Some? && Held(r.state) && r.worker.Some? && s in {SUCCESS, FAILURE, TERMINATED}
    case Abandon(_) => r.zone.Some? && Held(r.state) && r.worker.Some?
    case Fail(_) => r.zone.Some? && r.state == PENDING
    case Withdraw(_) => r.zone.Some? && r.state == PENDING
    case Flag => r.zone.Some? && Held(r.state) && r.worker.Some?
    case Close(s, _) => r.zone.None? && r.state == RUNNING && s in {SUCCESS, FAILURE, TERMINATED}
  }

  function Moved(r: Run, m: Move): Run
    requires Guarded(r, m)
  {
    match m
    case Stay => r
    case Claim(w, until, tok, at) => Claimed(r, w, until, tok, at)
    case Renew(toRunning, until, at) => Renewed(r, toRunning, until, at)
    case Finish(s, at) => Completed(r, s, at)
    case Abandon(at) => Abandoned(r, at)
    case Fail(at) => DispatchFailed(r, at)
    case Withdraw(at) => Cancelled(r, at)
    case Flag => Flagged(r)
    case Close(s, at) => if s == TERMINATED then Closed(r, s, at).(token := None) else Closed(r, s, at)
  }

  // ---------------------------------------------------------------- what every row obeys

  function Count(h: seq<RunState>, s: RunState): nat {
    if h == [] then 0 else Count(h[..|h|-1], s) + (if h[|h|-1] == s then 1 else 0)
  }

  lemma CountSnoc(h: seq<RunState>, x: RunState, s: RunState)
    ensures Count(h + [x], s) == Count(h, s) + (if x == s then 1 else 0)
  {
  }

  /** Every write follows LEGAL_TRANSITIONS, except the write that opens a fan-out parent. */
  predicate LegalHistory(h: seq<RunState>, isParent: bool) {
    && |h| > 0 && h[0] == PENDING
    && forall k {:trigger h[k]} :: 0 <= k < |h| - 1 ==>
         Legal(h[k], h[k+1]) || (isParent && k == 0 && h[1] == RUNNING)
  }

  function LastRevocation(h: seq<RunState>): Option<Revocation> {
    if h == [] then None
    else if h[|h|-1] == TERMINATED then Some(RevokedTerminated)
    else if h[|h|-1] == ABANDONED then Some(RevokedAbandoned)
    else LastRevocation(h[..|h|-1])
  }

  /** How many writes of the state column the current attempt has used. */
  function Rank(s: RunState): nat {
    match s
    case PENDING => 0
    case OFFERED => 1
    case CLAIMED => 1
    case RUNNING => 2
    case _ => 3
  }

  predicate NeverClaimed(s: RunState) {
    s in {PENDING, CANCELLED, FAILED_DISPATCH}
  }

  /** Who holds the row, and which of its columns are set. */
  predicate Columns(r: Run) {
    && r.state != OFFERED
    && r.result.status == StatusOf(r.state)
    && (r.finishedAt.Some? <==> Settled(r.state))
    && (r.token.Some? <==> Held(r.state) && r.worker.Some?)
    && (r.state == PENDING ==> r.worker.None? && r.lease.None? && r.zone.Some?)
    && (r.zone.Some? && Held(r.state) ==> r.worker.Some? && r.lease.Some?)
    && (r.zone.None? ==>
          && r.worker.None? && r.lease.None? && r.parent.None?
          && r.state in {RUNNING, SUCCESS, FAILURE, TERMINATED, FAILED_DISPATCH})
  }

  /** What the row's past must have been. */
  predicate Past(r: Run) {
    && LegalHistory(r.history, r.zone.None?)
    && r.history[|r.history|-1] == r.state
    && 1 <= r.attempt <= r.definition.retryMax + 1
    && |r.history| - 1 <= 4 * (r.attempt - 1) + Rank(r.state)
    && Count(r.history, ABANDONED) + (if r.state == ABANDONED then 0 else 1) == r.attempt
    && (r.zone.Some? ==> Count(r.history, CLAIMED) + (if NeverClaimed(r.state) then 1 else 0) == r.attempt)
    && r.result.revocation == LastRevocation(r.history)
  }

  predicate RowOk(r: Run) {
    Columns(r) && Past(r)
  }
}
