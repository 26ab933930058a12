/** `claim_runs` rescans the queue for every offer. It picks what one left-to-right walk would. */
module ClaimBatch {
  import opened Wrappers
  import opened Runs
  import opened RunFacts
  import opened Dispatch
  import opened Invariant
  import opened History
  import opened RowMoves

  /** One pass over the queue from row i on: claim what is eligible, pass over the rest, stop when the
      budget is spent or SCAN_LIMIT candidates have been passed over. */
  function Walk(db: Db, s: Settings, w: WorkerId, i: RunId, skipped: nat, budget: nat, now: Time): (Db, seq<RunId>)
    requires w in db.workers
    decreases |db.runs| - i
  {
    if i >= |db.runs| || budget == 0 || skipped >= SCAN_LIMIT then (db, [])
    else if !Candidate(db.runs[i], db.workers[w]) then Walk(db, s, w, i + 1, skipped, budget, now)
    else if Eligible(db.runs, i, db.workers[w]) then
      var (last, rest) := Walk(ClaimAt(db, s, w, i, now), s, w, i + 1, skipped, budget - 1, now);
      (last, [i] + rest)
    else Walk(db, s, w, i + 1, skipped + 1, budget, now)
  }

  /** Candidates among the first i rows. */
  ghost function Candidates(runs: seq<Run>, w: Worker, i: nat): nat
    requires i <= |runs|
  {
    if i == 0 then 0 else Candidates(runs, w, i - 1) + (if Candidate(runs[i-1], w) then 1 else 0)
  }

  /** The walk stands at row i and has passed over every candidate before it. */
  ghost predicate PassedOver(runs: seq<Run>, w: Worker, i: nat) {
    i <= |runs| && forall k :: 0 <= k < i && Candidate(runs[k], w) ==> !Eligible(runs, k, w)
  }

  /** A rescan that starts over arrives where the walk stands. */
  lemma {:induction false} RescanCatchesUp(runs: seq<Run>, w: Worker, i: nat)
    requires PassedOver(runs, w, i) && Candidates(runs, w, i) <= SCAN_LIMIT
    ensures Pick(runs, w, 0, 0) == Pick(runs, w, i, Candidates(runs, w, i))
  {
    if i > 0 { RescanCatchesUp(runs, w, i - 1); }
  }

  lemma {:induction false} SameCandidates(runs: seq<Run>, runs': seq<Run>, w: Worker, w': Worker, i: nat)
    requires i <= |runs| <= |runs'| && w'.zone == w.zone
    requires forall k :: 0 <= k < i ==> runs'[k] == runs[k]
    ensures Candidates(runs', w', i) == Candidates(runs, w, i)
  {
    if i > 0 { SameCandidates(runs, runs', w, w', i - 1); }
  }

  /** What was passed over stays passed over when row i is claimed: a held singleton stays held. */
  lemma ClaimKeepsPassedOver(db: Db, s: Settings, w: WorkerId, i: RunId, now: Time)
    requires w in db.workers && i < |db.runs| && Candidate(db.runs[i], db.workers[w])
    requires PassedOver(db.runs, db.workers[w], i)
    ensures var next := ClaimAt(db, s, w, i, now);
      && w in next.workers && |next.runs| == |db.runs| && PassedOver(next.runs, next.workers[w], i + 1)
      && Candidates(next.runs, next.workers[w], i + 1) == Candidates(db.runs, db.workers[w], i)
  {
    var next := ClaimAt(db, s, w, i, now);
    SameCandidates(db.runs, next.runs, db.workers[w], next.workers[w], i);
    forall k | 0 <= k < i + 1 && Candidate(next.runs[k], next.workers[w])
      ensures !Eligible(next.runs, k, next.workers[w])
    {
      assert k < i && next.runs[k] == db.runs[k];
      if OtherHeld(db.runs, k) {
        var j :|
          0 <= j < |db.runs| && j != k && Held(db.runs[j].state) && db.runs[j].definition == db.runs[k].definition;
        assert next.runs[j] == db.runs[j];
      }
    }
  }

  lemma LoopUnfolds(db: Db, s: Settings, w: WorkerId, budget: nat, now: Time)
    requires w in db.workers && budget > 0
    ensures var pick := Pick(db.runs, db.workers[w], 0, 0);
      if pick.None? then ClaimLoop(db, s, w, budget, now) == (db, [])
      else
        var (last, rest) := ClaimLoop(ClaimAt(db, s, w, pick.value, now), s, w, budget - 1, now);
        ClaimLoop(db, s, w, budget, now) == (last, [pick.value] + rest)
  {
  }

  /** The walk claims row i, and the loop's scan has come to the same row. */
  lemma BothClaim(db: Db, s: Settings, w: WorkerId, i: nat, skipped: nat, budget: nat, now: Time)
    requires w in db.workers && i < |db.runs| && budget > 0 && skipped < SCAN_LIMIT
    requires Candidate(db.runs[i], db.workers[w]) && Eligible(db.runs, i, db.workers[w])
    requires Pick(db.runs, db.workers[w], 0, 0) == Some(i) && w in ClaimAt(db, s, w, i, now).workers
    requires ClaimLoop(ClaimAt(db, s, w, i, now), s, w, budget - 1, now)
          == Walk(ClaimAt(db, s, w, i, now), s, w, i + 1, skipped, budget - 1, now)
    ensures ClaimLoop(db, s, w, budget, now) == Walk(db, s, w, i, skipped, budget, now)
  {
    LoopUnfolds(db, s, w, budget, now);
  }

  lemma {:induction false} LoopIsWalk(db: Db, s: Settings, w: WorkerId, i: nat, budget: nat, now: Time)
    requires w in db.workers && PassedOver(db.runs, db.workers[w], i)
    requires Candidates(db.runs, db.workers[w], i) <= SCAN_LIMIT
    ensures ClaimLoop(db, s, w, budget, now) == Walk(db, s, w, i, Candidates(db.runs, db.workers[w], i), budget, now)
    decreases |db.runs| - i
  {
    var me := db.workers[w];
    RescanCatchesUp(db.runs, me, i);
    if budget > 0 && i < |db.runs| && Candidates(db.runs, me, i) < SCAN_LIMIT {
      if Candidate(db.runs[i], me) && Eligible(db.runs, i, me) {
        ClaimKeepsPassedOver(db, s, w, i, now);
        LoopIsWalk(ClaimAt(db, s, w, i, now), s, w, i + 1, budget - 1, now);
        BothClaim(db, s, w, i, Candidates(db.runs, me, i), budget, now);
      } else {
        LoopIsWalk(db, s, w, i + 1, budget, now);
      }
    }
  }

  /** The offers of a claim are those of a single greedy walk, and so is the database afterwards. */
  lemma ClaimIsGreedy(db: Db, s: Settings, w: WorkerId, maxOffers: int, now: Time)
    requires w in db.workers && db.workers[w].enabled && !db.workers[w].draining
    ensures ClaimRuns(db, s, w, maxOffers, now)
         == Walk(db, s, w, 0, 0, Max(0, Min(maxOffers, FreeCapacity(db, w))), now)
  {
    LoopIsWalk(db, s, w, 0, Max(0, Min(maxOffers, FreeCapacity(db, w))), now);
  }

  // ---------------------------------------------------------------- what is offered, and how much

  /** The picks come in queue order from row i on, each one a run that was waiting in the worker's zone; those rows and
      no others change hands. */
  ghost predicate InOrder(db: Db, last: Db, w: WorkerId, i: RunId, picks: seq<RunId>)
    requires w in db.workers
  {
    && |last.runs| == |db.runs| && w in last.workers
    && (forall k :: 0 <= k < |picks| ==> i <= picks[k] < |db.runs| && Candidate(db.runs[picks[k]], db.workers[w]))
    && (forall j, k :: 0 <= j < k < |picks| ==> picks[j] < picks[k])
    && (forall r :: 0 <= r < |db.runs| ==>
          if r in picks then HeldBy(last.runs[r], w) else last.runs[r] == db.runs[r])
  }

  /** One more pick in front. */
  lemma InOrderCons(db: Db, next: Db, last: Db, w: WorkerId, i: RunId, rest: seq<RunId>)
    requires w in db.workers && w in next.workers && next.workers[w].zone == db.workers[w].zone
    requires i < |db.runs| && Candidate(db.runs[i], db.workers[w])
    requires |next.runs| == |db.runs| && next.runs == db.runs[i := next.runs[i]] && HeldBy(next.runs[i], w)
    requires InOrder(next, last, w, i + 1, rest)
    ensures InOrder(db, last, w, i, [i] + rest)
  {
    assert forall k :: 0 <= k < |rest| ==> rest[k] > i;
    assert forall r :: r in [i] + rest <==> r == i || r in rest;
  }

  lemma OneRowClaimed(db: Db, s: Settings, w: WorkerId, i: RunId, now: Time)
    requires w in db.workers && i < |db.runs|
    ensures var next := ClaimAt(db, s, w, i, now);
      && w in next.workers && next.workers[w].zone == db.workers[w].zone && |next.runs| == |db.runs|
      && next.runs == db.runs[i := next.runs[i]] && HeldBy(next.runs[i], w)
  {
  }

  /** The walk claims row i. */
  lemma FirstOffer(db: Db, s: Settings, w: WorkerId, i: RunId, skipped: nat, budget: nat, now: Time,
                   last: Db, rest: seq<RunId>)
    requires w in db.workers && i < |db.runs| && budget > 0 && skipped < SCAN_LIMIT
    requires Candidate(db.runs[i], db.workers[w]) && Eligible(db.runs, i, db.workers[w])
    requires w in ClaimAt(db, s, w, i, now).workers && InOrder(ClaimAt(db, s, w, i, now), last, w, i + 1, rest)
    requires (last, rest) == Walk(ClaimAt(db, s, w, i, now), s, w, i + 1, skipped, budget - 1, now)
    ensures (last, [i] + rest) == Walk(db, s, w, i, skipped, budget, now) && InOrder(db, last, w, i, [i] + rest)
  {
    OneRowClaimed(db, s, w, i, now);
    InOrderCons(db, ClaimAt(db, s, w, i, now), last, w, i, rest);
  }

  lemma InOrderFrom(db: Db, last: Db, w: WorkerId, i: RunId, picks: seq<RunId>)
    requires w in db.workers && InOrder(db, last, w, i + 1, picks)
    ensures InOrder(db, last, w, i, picks)
  {
  }

  lemma {:induction false} OffersInOrder(db: Db, s: Settings, w: WorkerId, i: RunId, skipped: nat, budget: nat,
                                         now: Time)
    returns (last: Db, picks: seq<RunId>)
    requires w in db.workers
    ensures (last, picks) == Walk(db, s, w, i, skipped, budget, now)
    ensures |picks| <= budget && InOrder(db, last, w, i, picks)
    decreases |db.runs| - i
  {
    if i >= |db.runs| || budget == 0 || skipped >= SCAN_LIMIT {
      last, picks := db, [];
    } else if !Candidate(db.runs[i], db.workers[w]) {
      last, picks := OffersInOrder(db, s, w, i + 1, skipped, budget, now);
      InOrderFrom(db, last, w, i, picks);
    } else if Eligible(db.runs, i, db.workers[w]) {
      OneRowClaimed(db, s, w, i, now);
      last, picks := OffersInOrder(ClaimAt(db, s, w, i, now), s, w, i + 1, skipped, budget - 1, now);
      FirstOffer(db, s, w, i, skipped, budget, now, last, picks);
      picks := [i] + picks;
    } else {
      last, picks := OffersInOrder(db, s, w, i + 1, skipped + 1, budget, now);
      InOrderFrom(db, last, w, i, picks);
    }
  }

  /** One row changes hands. */
  lemma {:induction false} InFlightUpdate(runs: seq<Run>, i: RunId, r: Run, w: WorkerId)
    requires i < |runs|
    ensures InFlight(runs[i := r], w)
         == InFlight(runs, w) - (if HeldBy(runs[i], w) then 1 else 0) + (if HeldBy(r, w) then 1 else 0)
  {
    var n := |runs| - 1;
    if i == n {
      assert runs[i := r][..n] == runs[..n];
    } else {
      assert runs[i := r][..n] == runs[..n][i := r];
      InFlightUpdate(runs[..n], i, r, w);
    }
  }

  lemma ClaimFillsOne(db: Db, s: Settings, w: WorkerId, i: RunId, now: Time)
    requires w in db.workers && i < |db.runs| && Candidate(db.runs[i], db.workers[w])
    ensures var next := ClaimAt(db, s, w, i, now);
      && w in next.workers && next.workers[w].capacity == db.workers[w].capacity
      && InFlight(next.runs, w) == InFlight(db.runs, w) + 1
  {
    InFlightUpdate(db.runs, i, ClaimAt(db, s, w, i, now).runs[i], w);
  }

  lemma {:induction false} LoopFillsExactly(db: Db, s: Settings, w: WorkerId, budget: nat, now: Time)
    returns (last: Db, offers: seq<RunId>)
    requires w in db.workers
    ensures (last, offers) == ClaimLoop(db, s, w, budget, now)
    ensures |offers| <= budget && InFlight(last.runs, w) == InFlight(db.runs, w) + |offers|
    decreases budget
  {
    last, offers := db, [];
    if budget > 0 {
      var pick := Pick(db.runs, db.workers[w], 0, 0);
      LoopUnfolds(db, s, w, budget, now);
      if pick.Some? {
        ClaimFillsOne(db, s, w, pick.value, now);
        last, offers := LoopFillsExactly(ClaimAt(db, s, w, pick.value, now), s, w, budget - 1, now);
        offers := [pick.value] + offers;
      }
    }
  }

  /** No batch takes a worker beyond its capacity. */
  lemma ClaimWithinCapacity(db: Db, s: Settings, w: WorkerId, maxOffers: int, now: Time)
    requires w in db.workers
    ensures var (last, offers) := ClaimRuns(db, s, w, maxOffers, now);
      && InFlight(last.runs, w) == InFlight(db.runs, w) + |offers|
      && |offers| <= Max(0, maxOffers)
      && InFlight(last.runs, w) <= Max(InFlight(db.runs, w), db.workers[w].capacity)
  {
    var last, offers := LoopFillsExactly(db, s, w, Max(0, Min(maxOffers, FreeCapacity(db, w))), now);
  }

  // ---------------------------------------------------------------- capacity, along every history

  /** Histories in which a worker's claim is served as a whole before its next one. */
  datatype Op = Batch(w: WorkerId, maxOffers: int, at: Time) | Single(step: Step)

  ghost predicate Whole(ops: seq<Op>) {
    forall k :: 0 <= k < |ops| && ops[k].Single? ==> !ops[k].step.ClaimNext?
  }

  function NextOp(s: Settings, db: Db, op: Op): Db {
    match op
    case Batch(w, maxOffers, at) => ClaimRuns(db, s, w, maxOffers, at).0
    case Single(step) => Next(s, db, step)
  }

  function ExecOps(s: Settings, db: Db, ops: seq<Op>): Db {
    if ops == [] then db else NextOp(s, ExecOps(s, db, ops[..|ops|-1]), ops[|ops|-1])
  }

  lemma {:induction false} LoopKeeps(db: Db, s: Settings, w: WorkerId, budget: nat, now: Time)
    requires Inv(db)
    ensures Inv(ClaimLoop(db, s, w, budget, now).0)
    decreases budget
  {
    if budget > 0 {
      ClaimKeeps(db, s, w, now);
      if ClaimOne(db, s, w, now).1.Some? { LoopKeeps(ClaimOne(db, s, w, now).0, s, w, budget - 1, now); }
    }
  }

  lemma OpKeeps(s: Settings, db: Db, op: Op)
    requires Inv(db)
    ensures Inv(NextOp(s, db, op))
  {
    match op
    case Batch(w, maxOffers, at) =>
      if w in db.workers { LoopKeeps(db, s, w, Max(0, Min(maxOffers, FreeCapacity(db, w))), at); }
    case Single(step) => StepKeeps(s, db, step);
  }

  ghost predicate NoNewHold(runs: seq<Run>, runs': seq<Run>, w: WorkerId) {
    && |runs| <= |runs'|
    && (forall k :: 0 <= k < |runs| && HeldBy(runs'[k], w) ==> HeldBy(runs[k], w))
    && (forall k :: |runs| <= k < |runs'| ==> !HeldBy(runs'[k], w))
  }

  lemma {:induction false} NoNewLoad(runs: seq<Run>, runs': seq<Run>, w: WorkerId)
    requires NoNewHold(runs, runs', w)
    ensures InFlight(runs', w) <= InFlight(runs, w)
    decreases |runs'|
  {
    if |runs'| > |runs| {
      NoNewLoad(runs, runs'[..|runs'|-1], w);
    } else if runs != [] {
      NoNewLoad(runs[..|runs|-1], runs'[..|runs|-1], w);
    }
  }

  lemma StepAddsNoLoad(s: Settings, db: Db, step: Step, w: WorkerId)
    requires Inv(db) && !step.ClaimNext?
    ensures InFlight(Next(s, db, step).runs, w) <= InFlight(db.runs, w)
  {
    var runs' := Next(s, db, step).runs;
    forall k: RunId | k < |db.runs|
      ensures k < |runs'| && (HeldBy(runs'[k], w) ==> HeldBy(db.runs[k], w))
    {
      var m := RowMove(s, db, step, k);
      MoveFollows(db.runs[k], m);
    }
    forall k: RunId | |db.runs| <= k < |runs'| ensures !HeldBy(runs'[k], w) { NewRowUnheld(s, db, step, k, w); }
    NoNewLoad(db.runs, runs', w);
  }

  lemma NewRowUnheld(s: Settings, db: Db, step: Step, k: RunId, w: WorkerId)
    requires |db.runs| <= k < |Next(s, db, step).runs|
    ensures !HeldBy(Next(s, db, step).runs[k], w)
  {
  }

  lemma BatchLoad(s: Settings, db: Db, v: WorkerId, maxOffers: int, at: Time, w: WorkerId)
    requires w !in db.workers || v != w
    ensures InFlight(ClaimRuns(db, s, v, maxOffers, at).0.runs, w) <= InFlight(db.runs, w)
  {
    if v in db.workers && db.workers[v].enabled && !db.workers[v].draining {
      ClaimIsGreedy(db, s, v, maxOffers, at);
      var last, picks := OffersInOrder(db, s, v, 0, 0, Max(0, Min(maxOffers, FreeCapacity(db, v))), at);
      NoNewLoad(db.runs, ClaimRuns(db, s, v, maxOffers, at).0.runs, w);
    } else {
      NoNewLoad(db.runs, db.runs, w);
    }
  }

  ghost predicate CapacityAtMost(s: Settings, db: Db, ops: seq<Op>, w: WorkerId, most: nat) {
    forall k :: 0 <= k <= |ops| ==>
      var d := ExecOps(s, db, ops[..k]);
      w in d.workers ==> d.workers[w].capacity <= most
  }

  /** A worker never has more runs than the largest capacity it announced. */
  lemma {:induction false} CapacityRespected(s: Settings, workers: map<WorkerId, Worker>, ops: seq<Op>,
                                             w: WorkerId, most: nat)
    requires Whole(ops) && CapacityAtMost(s, Start(workers), ops, w, most)
    ensures Inv(ExecOps(s, Start(workers), ops)) && InFlight(ExecOps(s, Start(workers), ops).runs, w) <= most
  {
    if ops != [] {
      var prefix, op := ops[..|ops|-1], ops[|ops|-1];
      var before := ExecOps(s, Start(workers), prefix);
      assert forall k :: 0 <= k <= |prefix| ==> ops[..k] == prefix[..k];
      assert prefix[..|prefix|] == prefix;
      CapacityRespected(s, workers, prefix, w, most);
      OpKeeps(s, before, op);
      match op
      case Batch(v, maxOffers, at) =>
        if v == w && w in before.workers { ClaimWithinCapacity(before, s, w, maxOffers, at); }
        else { BatchLoad(s, before, v, maxOffers, at, w); }
      case Single(step) => StepAddsNoLoad(s, before, step, w);
    }
  }
}
