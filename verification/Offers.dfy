/** Which runs a batch claim offers, in the columns of the rows: every one that can run now, in queue order, until the
    budget is spent or twenty waiting runs that cannot have been passed over. */
module Offers {
  import opened Wrappers
  import opened Runs
  import opened Dispatch
  import opened ClaimBatch

  /** The run waits for a worker of this zone. */
  ghost predicate WaitsIn(r: Run, z: Zone) {
    r.state == PENDING && r.zone == Some(z)
  }

  /** Another run of the same definition is with a worker, or is a RUNNING parent: before the batch, or by an offer of
      the batch that came earlier. */
  ghost predicate Occupied(runs: seq<Run>, picks: seq<RunId>, i: RunId)
    requires i < |runs|
  {
    exists j :: 0 <= j < |runs| && j != i && runs[j].definition == runs[i].definition
                && (runs[j].state in {CLAIMED, RUNNING} || (j in picks && j < i))
  }

  /** The worker cannot be given the run now. */
  ghost predicate Blocked(runs: seq<Run>, picks: seq<RunId>, i: RunId, w: Worker)
    requires i < |runs|
  {
    || !(runs[i].definition.capabilities <= w.capabilities)
    || (runs[i].definition.singleton && Occupied(runs, picks, i))
  }

  /** How many runs between rows lo and hi wait and are not offered. */
  ghost function Waiting(runs: seq<Run>, picks: seq<RunId>, z: Zone, lo: nat, hi: nat): nat
    requires hi <= |runs|
    decreases hi - lo
  {
    if lo >= hi then 0
    else (if WaitsIn(runs[lo], z) && lo !in picks then 1 else 0) + Waiting(runs, picks, z, lo + 1, hi)
  }

  /** What the offers from row i on are, when `skipped` waiting runs have been passed over and `budget` offers are
      left. */
  ghost predicate Exact(db: Db, picks: seq<RunId>, w: Worker, i: nat, skipped: nat, budget: nat) {
    && |picks| <= budget
    && (forall p :: p in picks ==> p < |db.runs| && Offered(db, picks, w, i, skipped, p))
    && (forall r :: i <= r < |db.runs| && r !in picks && WaitsIn(db.runs[r], w.zone) ==>
          PassedBy(db, picks, w, i, skipped, budget, r))
  }

  ghost predicate Offered(db: Db, picks: seq<RunId>, w: Worker, i: nat, skipped: nat, p: RunId)
    requires p < |db.runs|
  {
    && i <= p && WaitsIn(db.runs[p], w.zone) && !Blocked(db.runs, picks, p, w)
    && skipped + Waiting(db.runs, picks, w.zone, i, p) < 20
  }

  /** A waiting run that is not offered is blocked, or the batch had ended before it: its budget was spent on earlier
      runs, or twenty had been passed over. */
  ghost predicate PassedBy(db: Db, picks: seq<RunId>, w: Worker, i: nat, skipped: nat, budget: nat, r: RunId)
    requires r < |db.runs|
  {
    || Blocked(db.runs, picks, r, w)
    || (|picks| == budget && forall p :: p in picks ==> p < r)
    || skipped + Waiting(db.runs, picks, w.zone, i, r) >= 20
  }

  lemma {:induction false} WaitingSame(runs: seq<Run>, runs': seq<Run>, picks: seq<RunId>, picks': seq<RunId>, z: Zone,
                                       lo: nat, hi: nat)
    requires hi <= |runs| == |runs'|
    requires forall k :: lo <= k < hi ==> runs'[k] == runs[k] && (k in picks' <==> k in picks)
    ensures Waiting(runs', picks', z, lo, hi) == Waiting(runs, picks, z, lo, hi)
    decreases hi - lo
  {
    if lo < hi { WaitingSame(runs, runs', picks, picks', z, lo + 1, hi); }
  }

  /** Row i is offered: what is blocked after it is blocked by the same rows, itself included. */
  lemma BlockedAfterClaim(runs: seq<Run>, runs': seq<Run>, rest: seq<RunId>, i: RunId, r: RunId, w: Worker, w': Worker)
    requires i < r < |runs| == |runs'| && runs'[i].state == CLAIMED && runs'[i].definition == runs[i].definition
    requires runs[i].state == PENDING && w'.capabilities == w.capabilities
    requires forall k :: 0 <= k < |runs| && k != i ==> runs'[k] == runs[k]
    ensures Blocked(runs', rest, r, w') <==> Blocked(runs, [i] + rest, r, w)
  {
    if Occupied(runs', rest, r) {
      var j :| 0 <= j < |runs'| && j != r && runs'[j].definition == runs'[r].definition
               && (runs'[j].state in {CLAIMED, RUNNING} || (j in rest && j < r));
      assert j == i ==> j in [i] + rest;
      assert Occupied(runs, [i] + rest, r);
    }
    if Occupied(runs, [i] + rest, r) {
      var j :| 0 <= j < |runs| && j != r && runs[j].definition == runs[r].definition
               && (runs[j].state in {CLAIMED, RUNNING} || (j in [i] + rest && j < r));
      assert j == i || j in rest || runs[j].state in {CLAIMED, RUNNING};
      assert Occupied(runs', rest, r);
    }
  }

  /** The first offer is not blocked by anything the batch does. */
  lemma FirstUnblocked(runs: seq<Run>, rest: seq<RunId>, i: RunId, w: Worker)
    requires i < |runs| && Eligible(runs, i, w) && forall p :: p in rest ==> p > i
    ensures !Blocked(runs, [i] + rest, i, w)
  {
  }

  lemma ExactCons(db: Db, next: Db, rest: seq<RunId>, w: Worker, w': Worker, i: nat, skipped: nat, budget: nat)
    requires i < |db.runs| == |next.runs| && budget > 0 && skipped < 20
    requires WaitsIn(db.runs[i], w.zone) && Eligible(db.runs, i, w)
    requires w'.zone == w.zone && w'.capabilities == w.capabilities
    requires next.runs[i].state == CLAIMED && next.runs[i].definition == db.runs[i].definition
    requires forall k :: 0 <= k < |db.runs| && k != i ==> next.runs[k] == db.runs[k]
    requires Exact(next, rest, w', i + 1, skipped, budget - 1)
    ensures Exact(db, [i] + rest, w, i, skipped, budget)
  {
    var picks := [i] + rest;
    forall p | p in picks ensures p < |db.runs| && Offered(db, picks, w, i, skipped, p) {
      if p == i {
        FirstUnblocked(db.runs, rest, i, w);
      } else {
        WaitingSame(db.runs, next.runs, picks, rest, w.zone, i + 1, p);
        BlockedAfterClaim(db.runs, next.runs, rest, i, p, w, w');
      }
    }
    forall r | i <= r < |db.runs| && r !in picks && WaitsIn(db.runs[r], w.zone)
      ensures PassedBy(db, picks, w, i, skipped, budget, r)
    {
      assert r != i && r !in rest;
      WaitingSame(db.runs, next.runs, picks, rest, w.zone, i + 1, r);
      BlockedAfterClaim(db.runs, next.runs, rest, i, r, w, w');
      assert PassedBy(next, rest, w', i + 1, skipped, budget - 1, r);
    }
  }

  /** Row i is passed over or does not wait. */
  lemma ExactPass(db: Db, picks: seq<RunId>, w: Worker, i: nat, skipped: nat, budget: nat)
    requires i < |db.runs| && skipped < 20
    requires WaitsIn(db.runs[i], w.zone) ==> !Eligible(db.runs, i, w)
    requires Exact(db, picks, w, i + 1, if WaitsIn(db.runs[i], w.zone) then skipped + 1 else skipped, budget)
    ensures Exact(db, picks, w, i, skipped, budget)
  {
    assert i !in picks;
    if WaitsIn(db.runs[i], w.zone) { IneligibleIsBlocked(db.runs, picks, i, w); }
  }

  lemma IneligibleIsBlocked(runs: seq<Run>, picks: seq<RunId>, i: RunId, w: Worker)
    requires i < |runs| && !Eligible(runs, i, w)
    ensures Blocked(runs, picks, i, w)
  {
  }

  lemma ClaimedRow(db: Db, s: Settings, w: WorkerId, i: RunId, now: Time)
    requires w in db.workers && i < |db.runs|
    ensures var next := ClaimAt(db, s, w, i, now);
      && w in next.workers && next.workers[w].zone == db.workers[w].zone
      && next.workers[w].capabilities == db.workers[w].capabilities && |next.runs| == |db.runs|
      && GivenTo(db.runs[i], next.runs[i], w, now + s.leaseSeconds, now)
      && forall k :: 0 <= k < |db.runs| && k != i ==> next.runs[k] == db.runs[k]
  {
  }

  /** The row is the worker's from now on, for one lease period to begin with. */
  ghost predicate GivenTo(r: Run, r': Run, w: WorkerId, until: Time, now: Time) {
    && r'.state == CLAIMED && r'.worker == Some(w) && r'.claimedAt == Some(now) && r'.lease == Some(until)
    && r'.token.Some? && r'.definition == r.definition && r'.attempt == r.attempt && r'.startedAt == r.startedAt
    && r'.result.status == StatusPending && r'.result.worker == Some(w)
  }

  ghost predicate GivenExactly(db: Db, last: Db, s: Settings, w: WorkerId, picks: seq<RunId>, i: nat, now: Time) {
    && |last.runs| == |db.runs|
    && (forall k :: 0 <= k < |picks| ==> i <= picks[k] < |db.runs|)
    && (forall j, k :: 0 <= j < k < |picks| ==> picks[j] < picks[k])
    && forall r :: 0 <= r < |db.runs| ==>
         if r in picks then GivenTo(db.runs[r], last.runs[r], w, now + s.leaseSeconds, now)
         else last.runs[r] == db.runs[r]
  }

  lemma GivenCons(db: Db, next: Db, last: Db, s: Settings, w: WorkerId, rest: seq<RunId>, i: nat, now: Time)
    requires i < |db.runs| == |next.runs| && GivenTo(db.runs[i], next.runs[i], w, now + s.leaseSeconds, now)
    requires forall k :: 0 <= k < |db.runs| && k != i ==> next.runs[k] == db.runs[k]
    requires GivenExactly(next, last, s, w, rest, i + 1, now)
    ensures GivenExactly(db, last, s, w, [i] + rest, i, now)
  {
    var picks := [i] + rest;
    assert i !in rest;
    forall r | 0 <= r < |db.runs|
      ensures if r in picks then GivenTo(db.runs[r], last.runs[r], w, now + s.leaseSeconds, now)
              else last.runs[r] == db.runs[r]
    {
      assert r in picks <==> r == i || r in rest;
    }
  }

  lemma WalkClaims(db: Db, s: Settings, w: WorkerId, i: nat, skipped: nat, budget: nat, now: Time,
                   last: Db, rest: seq<RunId>)
    requires w in db.workers && i < |db.runs| && budget > 0 && skipped < 20 && w in ClaimAt(db, s, w, i, now).workers
    requires WaitsIn(db.runs[i], db.workers[w].zone) && Eligible(db.runs, i, db.workers[w])
    requires (last, rest) == Walk(ClaimAt(db, s, w, i, now), s, w, i + 1, skipped, budget - 1, now)
    ensures (last, [i] + rest) == Walk(db, s, w, i, skipped, budget, now)
  {
  }

  lemma {:induction false} WalkExactly(db: Db, s: Settings, w: WorkerId, i: nat, skipped: nat, budget: nat, now: Time)
    returns (last: Db, picks: seq<RunId>)
    requires w in db.workers
    ensures (last, picks) == Walk(db, s, w, i, skipped, budget, now)
    ensures Exact(db, picks, db.workers[w], i, skipped, budget)
    decreases |db.runs| - i
  {
    if i >= |db.runs| || budget == 0 || skipped >= 20 {
      last, picks := db, [];
    } else if !WaitsIn(db.runs[i], db.workers[w].zone) {
      last, picks := WalkExactly(db, s, w, i + 1, skipped, budget, now);
      ExactPass(db, picks, db.workers[w], i, skipped, budget);
    } else if Eligible(db.runs, i, db.workers[w]) {
      ClaimedRow(db, s, w, i, now);
      var next, rest := ClaimAt(db, s, w, i, now), [];
      last, rest := WalkExactly(next, s, w, i + 1, skipped, budget - 1, now);
      WalkClaims(db, s, w, i, skipped, budget, now, last, rest);
      ExactCons(db, next, rest, db.workers[w], next.workers[w], i, skipped, budget);
      picks := [i] + rest;
    } else {
      last, picks := WalkExactly(db, s, w, i + 1, skipped + 1, budget, now);
      ExactPass(db, picks, db.workers[w], i, skipped, budget);
    }
  }

  lemma {:induction false} WalkGives(db: Db, s: Settings, w: WorkerId, i: nat, skipped: nat, budget: nat, now: Time)
    returns (last: Db, picks: seq<RunId>)
    requires w in db.workers
    ensures (last, picks) == Walk(db, s, w, i, skipped, budget, now)
    ensures GivenExactly(db, last, s, w, picks, i, now)
    decreases |db.runs| - i
  {
    if i >= |db.runs| || budget == 0 || skipped >= 20 {
      last, picks := db, [];
    } else if !WaitsIn(db.runs[i], db.workers[w].zone) {
      last, picks := WalkGives(db, s, w, i + 1, skipped, budget, now);
    } else if Eligible(db.runs, i, db.workers[w]) {
      ClaimedRow(db, s, w, i, now);
      var next, rest := ClaimAt(db, s, w, i, now), [];
      last, rest := WalkGives(next, s, w, i + 1, skipped, budget - 1, now);
      WalkClaims(db, s, w, i, skipped, budget, now, last, rest);
      GivenCons(db, next, last, s, w, rest, i, now);
      picks := [i] + rest;
    } else {
      last, picks := WalkGives(db, s, w, i + 1, skipped + 1, budget, now);
    }
  }

  // ---------------------------------------------------------------- how many runs a worker has

  /** The rows of the runs that are with the worker. */
  ghost function With(runs: seq<Run>, w: WorkerId): set<RunId> {
    set i: RunId | i < |runs| && runs[i].state in {CLAIMED, RUNNING} && runs[i].worker == Some(w)
  }

  lemma WithLast(runs: seq<Run>, w: WorkerId, n: nat)
    requires |runs| == n + 1
    ensures n !in With(runs[..n], w)
    ensures With(runs, w)
         == With(runs[..n], w) + (if runs[n].state in {CLAIMED, RUNNING} && runs[n].worker == Some(w) then {n} else {})
  {
    forall i: RunId | i < n ensures i in With(runs, w) <==> i in With(runs[..n], w) { assert runs[..n][i] == runs[i]; }
  }

  /** The load of a worker is the number of its CLAIMED and RUNNING rows. */
  lemma {:induction false} InFlightIsCount(runs: seq<Run>, w: WorkerId)
    ensures InFlight(runs, w) == |With(runs, w)|
  {
    if runs != [] {
      InFlightIsCount(runs[..|runs|-1], w);
      WithLast(runs, w, |runs| - 1);
    }
  }

  function Least(a: int, b: int): int {
    if a < b then a else b
  }

  /** How many offers a batch may make: as many as are asked for and as the worker has free slots. */
  ghost function Slots(db: Db, w: WorkerId, maxOffers: int): int
    requires w in db.workers
  {
    Least(maxOffers, db.workers[w].capacity - |With(db.runs, w)|)
  }

  /** A batch for an enabled worker that is not draining offers exactly the waiting runs of its zone that it can execute
      and whose definition allows it, in the order of the rows, up to its free slots and up to the twentieth run that is
      passed over; any other worker is offered nothing. */
  lemma ClaimExactly(db: Db, s: Settings, w: WorkerId, maxOffers: int, now: Time)
    requires w in db.workers
    ensures var (last, picks) := ClaimRuns(db, s, w, maxOffers, now); var me := db.workers[w];
      && GivenExactly(db, last, s, w, picks, 0, now)
      && (!me.enabled || me.draining ==> picks == [] && last == db)
      && (me.enabled && !me.draining ==>
            Exact(db, picks, me, 0, 0, if Slots(db, w, maxOffers) > 0 then Slots(db, w, maxOffers) else 0))
  {
    if db.workers[w].enabled && !db.workers[w].draining {
      InFlightIsCount(db.runs, w);
      ClaimIsGreedy(db, s, w, maxOffers, now);
      var last, picks := WalkExactly(db, s, w, 0, 0, Max(0, Min(maxOffers, FreeCapacity(db, w))), now);
      last, picks := WalkGives(db, s, w, 0, 0, Max(0, Min(maxOffers, FreeCapacity(db, w))), now);
    }
  }
}
