/** From the sink to the server's tables: retried requests on one side, deduplicated writes on the other. */
module LogDelivery {
  import opened LogSinks
  import opened LogFlush

  /** The cache key under which an ingested batch is remembered. */
  datatype Mark = Mark(key: Key, sequence: nat)

  /** `writes` are the bulk inserts that were committed, in order. */
  datatype Store = Store(writes: seq<Batch>, marks: set<Mark>)

  /** How the server fares with one request: it may be unavailable or refuse the request before it looks at the
      batch, fail to write the rows, or fail between the write and the mark. */
  datatype Fault = NoFault | Unavailable | Refused | WriteFails | MarkFails

  datatype Status = Ok | ClientError | ServerError

  /** One request: lost on the way, or processed with the answer delivered or lost. */
  datatype Attempt = Lost | Reached(fault: Fault, answered: bool)

  datatype Outcome = Delivered | Rejected | GaveUp

  function MarkOf(b: Batch): Mark {
    Mark(b.key, b.sequence)
  }

  /** Batches share a mark if and only if run, kind and number are the same. */
  lemma MarksApart(a: Batch, b: Batch)
    ensures MarkOf(a) == MarkOf(b) <==>
      a.key.run == b.key.run && a.key.kind == b.key.kind && a.sequence == b.sequence
  {
  }

  /** `write_log_batch` and `write_console_batch`, behind the endpoint's own checks. */
  function Ingest(store: Store, b: Batch, fault: Fault): (Store, Status) {
    if fault == Unavailable then (store, ServerError)
    else if fault == Refused then (store, ClientError)
    else if MarkOf(b) in store.marks then (store, Ok)
    else match fault
      case WriteFails => (store, ServerError)
      case MarkFails => (store.(writes := store.writes + [b]), ServerError)
      case _ => (Store(store.writes + [b], store.marks + {MarkOf(b)}), Ok)
  }

  /** `HttpLogSink._send` with its attempts still to come. */
  function Send(store: Store, b: Batch, attempts: seq<Attempt>): (Store, Outcome)
    decreases |attempts|
  {
    if attempts == [] then (store, GaveUp) else
    match attempts[0]
    case Lost => Send(store, b, attempts[1..])
    case Reached(fault, answered) =>
      var (next, status) := Ingest(store, b, fault);
      if answered && status == Ok then (next, Delivered)
      else if answered && status == ClientError then (next, Rejected)
      else Send(next, b, attempts[1..])
  }

  class LogIngest {
    var writes: seq<Batch>
    var marks: set<Mark>

    constructor ()
      ensures Snapshot() == Store([], {})
    {
      writes, marks := [], {};
    }

    ghost function Snapshot(): Store
      reads this
    {
      Store(writes, marks)
    }

    /** The mark is set only after the rows are written. */
    method WriteBatch(b: Batch, fault: Fault) returns (status: Status)
      modifies this
      ensures (Snapshot(), status) == Ingest(old(Snapshot()), b, fault)
    {
      if fault == Unavailable {
        return ServerError;
      }
      if fault == Refused {
        return ClientError;
      }
      if MarkOf(b) in marks {
        return Ok;
      }
      if fault == WriteFails {
        return ServerError;
      }
      writes := writes + [b];
      if fault == MarkFails {
        return ServerError;
      }
      marks := marks + {MarkOf(b)};
      return Ok;
    }
  }

  /** The bounded retry loop. */
  method SendBatch(server: LogIngest, b: Batch, attempts: seq<Attempt>) returns (outcome: Outcome)
    modifies server
    ensures (server.Snapshot(), outcome) == Send(old(server.Snapshot()), b, attempts)
  {
    ghost var whole := Send(server.Snapshot(), b, attempts);
    for k := 0 to |attempts|
      invariant Send(server.Snapshot(), b, attempts[k..]) == whole
    {
      assert attempts[k..][1..] == attempts[k+1..];
      match attempts[k]
      case Lost =>
      case Reached(fault, answered) =>
        var status := server.WriteBatch(b, fault);
        if answered && status == Ok {
          return Delivered;
        }
        if answered && status == ClientError {
          return Rejected;
        }
    }
    return GaveUp;
  }

  // ---------------------------------------------------------------- one batch

  function Times(n: nat, b: Batch): seq<Batch> {
    seq(n, _ => b)
  }

  function Failing(attempts: seq<Attempt>): nat {
    if attempts == [] then 0
    else Failing(attempts[1..]) + (if attempts[0].Reached? && attempts[0].fault == MarkFails then 1 else 0)
  }

  /** How often an unmarked batch is written by these attempts: once for every write whose mark fails, and once for
      the first request that is processed to the end; an answered refusal ends the sending. */
  function Stored(attempts: seq<Attempt>): nat {
    if attempts == [] then 0 else
    match attempts[0]
    case Lost => Stored(attempts[1..])
    case Reached(fault, answered) =>
      if fault == NoFault then 1
      else if fault == MarkFails then 1 + Stored(attempts[1..])
      else if fault == Refused && answered then 0
      else Stored(attempts[1..])
  }

  /** Whether these attempts leave the batch marked. */
  predicate Marked(attempts: seq<Attempt>) {
    attempts != [] && match attempts[0]
      case Lost => Marked(attempts[1..])
      case Reached(fault, answered) =>
        fault == NoFault || (!(fault == Refused && answered) && Marked(attempts[1..]))
  }

  /** Attempt k is made and is of the given faults. */
  ghost predicate Happens(attempts: seq<Attempt>, k: int, faults: set<Fault>) {
    && 0 <= k < |attempts| && attempts[k].Reached? && attempts[k].fault in faults
    && forall j :: 0 <= j < k ==> attempts[j] != Reached(Refused, true)
  }

  lemma HappensLater(attempts: seq<Attempt>, faults: set<Fault>)
    requires attempts != []
    ensures (exists k :: Happens(attempts, k, faults)) <==>
      Happens(attempts, 0, faults)
      || (attempts[0] != Reached(Refused, true) && exists k :: Happens(attempts[1..], k, faults))
  {
    var rest := attempts[1..];
    forall k | Happens(attempts, k, faults) && k > 0
      ensures attempts[0] != Reached(Refused, true) && Happens(rest, k - 1, faults)
    {
      assert forall j :: 0 <= j < k - 1 ==> rest[j] == attempts[j+1];
    }
    if attempts[0] != Reached(Refused, true) {
      forall k | Happens(rest, k, faults) ensures Happens(attempts, k + 1, faults) {
        assert forall j :: 0 < j < k + 1 ==> attempts[j] == rest[j-1];
      }
    }
  }

  /** A batch is stored if and only if some request wrote it before an answered refusal, whether or not its mark was
      set; it is marked if and only if such a request was processed to the end; and it is stored more than once only
      if a mark failed. */
  lemma {:induction false} StoredExactly(attempts: seq<Attempt>)
    ensures Stored(attempts) >= 1 <==> exists k :: Happens(attempts, k, {NoFault, MarkFails})
    ensures Marked(attempts) <==> exists k :: Happens(attempts, k, {NoFault})
    ensures Marked(attempts) ==> Stored(attempts) >= 1
    ensures Failing(attempts) == 0 ==> Stored(attempts) == if Marked(attempts) then 1 else 0
    ensures Stored(attempts) <= Failing(attempts) + 1
  {
    if attempts != [] {
      StoredExactly(attempts[1..]);
      HappensLater(attempts, {NoFault, MarkFails});
      HappensLater(attempts, {NoFault});
    }
  }

  /** A marked batch is never written again. */
  lemma {:induction false} MarkedIsDropped(store: Store, b: Batch, attempts: seq<Attempt>)
    requires MarkOf(b) in store.marks
    ensures Send(store, b, attempts).0 == store
  {
    if attempts != [] { MarkedIsDropped(store, b, attempts[1..]); }
  }

  /** What sending an unmarked batch does to the store, exactly; a sender that is told of success told no lie. */
  lemma {:induction false} SendWrites(store: Store, b: Batch, attempts: seq<Attempt>)
    requires MarkOf(b) !in store.marks
    ensures var (after, outcome) := Send(store, b, attempts);
      && after.writes == store.writes + Times(Stored(attempts), b)
      && after.marks == (if Marked(attempts) then store.marks + {MarkOf(b)} else store.marks)
      && (outcome == Delivered ==> Marked(attempts))
    decreases |attempts|
  {
    if attempts == [] || attempts[0] == Reached(Refused, true) {
      assert store.writes + Times(0, b) == store.writes;
    } else if attempts[0].Reached? && attempts[0].fault == NoFault {
      var next := Ingest(store, b, NoFault).0;
      assert next.writes == store.writes + Times(1, b);
      MarkedIsDropped(next, b, attempts[1..]);
    } else if attempts[0].Reached? && attempts[0].fault == MarkFails {
      var next, n := Ingest(store, b, MarkFails).0, Stored(attempts[1..]);
      SendWrites(next, b, attempts[1..]);
      assert next.writes + Times(n, b) == store.writes + Times(n + 1, b);
    } else {
      SendWrites(store, b, attempts[1..]);
    }
  }

  // ---------------------------------------------------------------- what the sender is told

  /** Attempt k is answered with a success: it was processed to the end, or reached the check of the mark after the mark
      had been set, by this send or before it. */
  ghost predicate AnsweredOk(attempts: seq<Attempt>, k: int, marked: bool) {
    && 0 <= k < |attempts| && attempts[k].Reached? && attempts[k].answered
    && (attempts[k].fault == NoFault
        || (attempts[k].fault in {WriteFails, MarkFails}
            && (marked || exists j :: 0 <= j < k && attempts[j].Reached? && attempts[j].fault == NoFault)))
  }

  ghost predicate Stops(attempts: seq<Attempt>, k: int, marked: bool) {
    0 <= k < |attempts| && (attempts[k] == Reached(Refused, true) || AnsweredOk(attempts, k, marked))
  }

  /** The first attempt that is answered with a success or a refusal. */
  ghost predicate FirstStop(attempts: seq<Attempt>, k: int, marked: bool) {
    Stops(attempts, k, marked) && forall j :: 0 <= j < k ==> !Stops(attempts, j, marked)
  }

  /** The attempts after the first one, as seen from all of them. */
  lemma StopsLater(attempts: seq<Attempt>, k: int, marked: bool)
    requires attempts != [] && 0 <= k < |attempts| - 1
    ensures var marked' := marked || (attempts[0].Reached? && attempts[0].fault == NoFault);
      && (AnsweredOk(attempts, k + 1, marked) <==> AnsweredOk(attempts[1..], k, marked'))
      && (Stops(attempts, k + 1, marked) <==> Stops(attempts[1..], k, marked'))
  {
    var rest := attempts[1..];
    assert forall j :: 0 <= j < k ==> rest[j] == attempts[j+1];
    if exists j :: 0 <= j < k + 1 && attempts[j].Reached? && attempts[j].fault == NoFault {
      var j :| 0 <= j < k + 1 && attempts[j].Reached? && attempts[j].fault == NoFault;
      if j > 0 { assert rest[j-1] == attempts[j]; }
    }
    if exists j :: 0 <= j < k && rest[j].Reached? && rest[j].fault == NoFault {
      var j :| 0 <= j < k && rest[j].Reached? && rest[j].fault == NoFault;
      assert attempts[j+1] == rest[j];
    }
  }

  /** Where the loop ends: at its first stop, or nowhere. */
  lemma {:induction false} LoopEndsAt(store: Store, b: Batch, attempts: seq<Attempt>) returns (k: nat)
    ensures var outcome, marked := Send(store, b, attempts).1, MarkOf(b) in store.marks;
      && k <= |attempts| && (forall j :: 0 <= j < k ==> !Stops(attempts, j, marked))
      && (outcome == GaveUp <==> k == |attempts|)
      && (outcome == Delivered <==> AnsweredOk(attempts, k, marked))
      && (outcome == Rejected <==> k < |attempts| && attempts[k] == Reached(Refused, true))
    decreases |attempts|
  {
    var marked := MarkOf(b) in store.marks;
    k := 0;
    if attempts != [] && !Stops(attempts, 0, marked) {
      var next := if attempts[0].Lost? then store else Ingest(store, b, attempts[0].fault).0;
      var marked' := marked || (attempts[0].Reached? && attempts[0].fault == NoFault);
      assert MarkOf(b) in next.marks <==> marked';
      k := LoopEndsAt(next, b, attempts[1..]);
      forall j | 0 <= j <= k ensures !Stops(attempts, j, marked) {
        if j > 0 { StopsLater(attempts, j - 1, marked); }
      }
      if k < |attempts| - 1 { StopsLater(attempts, k, marked); }
      k := k + 1;
    }
  }

  /** The first answered success ends the loop as delivered, the first answered refusal as rejected, and the sender
      gives up only when none of its attempts is answered so. */
  lemma OutcomeExactly(store: Store, b: Batch, attempts: seq<Attempt>)
    ensures var outcome, marked := Send(store, b, attempts).1, MarkOf(b) in store.marks;
      && (outcome == GaveUp <==> forall k :: 0 <= k < |attempts| ==> !Stops(attempts, k, marked))
      && (outcome == Delivered <==> exists k :: FirstStop(attempts, k, marked) && AnsweredOk(attempts, k, marked))
      && (outcome == Rejected <==> exists k :: FirstStop(attempts, k, marked) && attempts[k] == Reached(Refused, true))
  {
    var marked := MarkOf(b) in store.marks;
    var k := LoopEndsAt(store, b, attempts);
    if k < |attempts| {
      assert FirstStop(attempts, k, marked);
      forall j | FirstStop(attempts, j, marked) ensures j == k {
        assert !(j < k) || !Stops(attempts, j, marked);
      }
    }
  }

  // ---------------------------------------------------------------- one lifetime of a sink

  /** The sink's batches in order, each sent to its end before the next; `plans[k]` are the attempts of act k. */
  function Deliver(store: Store, acts: seq<Act>, plans: seq<seq<Attempt>>): Store
    requires |plans| == |acts|
  {
    if acts == [] then store else
    var n := |acts| - 1;
    var before := Deliver(store, acts[..n], plans[..n]);
    if acts[n].Sent? then Send(before, acts[n].batch, plans[n]).0 else before
  }

  /** What the sender of act k was told. */
  function Told(store: Store, acts: seq<Act>, plans: seq<seq<Attempt>>, k: nat): Outcome
    requires |plans| == |acts| && k < |acts| && acts[k].Sent?
  {
    Send(Deliver(store, acts[..k], plans[..k]), acts[k].batch, plans[k]).1
  }

  /** The entries of one run and kind in the order in which they were written. */
  function Rows(writes: seq<Batch>, key: Key): seq<Entry> {
    if writes == [] then [] else
    var front, last := Rows(writes[..|writes|-1], key), writes[|writes|-1];
    if last.key == key then front + last.entries else front
  }

  function Copies(entries: seq<Entry>, n: nat): seq<Entry> {
    if n == 0 then [] else Copies(entries, n - 1) + entries
  }

  /** The batches of one run and kind in order, batch k as often as `times[k]` says. */
  function Replayed(acts: seq<Act>, times: seq<nat>, key: Key): seq<Entry>
    requires |times| == |acts|
  {
    if acts == [] then [] else
    var n := |acts| - 1;
    var front := Replayed(acts[..n], times[..n], key);
    if acts[n].Sent? && acts[n].batch.key == key then front + Copies(acts[n].batch.entries, times[n]) else front
  }

  lemma RowsSnoc(writes: seq<Batch>, b: Batch, key: Key)
    ensures Rows(writes + [b], key) == Rows(writes, key) + (if b.key == key then b.entries else [])
  {
  }

  /** One more copy of the batch at the end of the writes. */
  lemma RowsOneMore(writes: seq<Batch>, n: nat, b: Batch, key: Key)
    requires n > 0
    ensures Rows(writes + Times(n, b), key)
         == Rows(writes + Times(n - 1, b), key) + (if b.key == key then b.entries else [])
  {
    RowsSnoc(writes + Times(n - 1, b), b, key);
    assert writes + Times(n, b) == (writes + Times(n - 1, b)) + [b];
  }

  lemma CopiesOneMore(rows: seq<Entry>, entries: seq<Entry>, n: nat)
    requires n > 0
    ensures (rows + Copies(entries, n - 1)) + entries == rows + Copies(entries, n)
  {
  }

  lemma {:induction false} RowsOfTimes(writes: seq<Batch>, n: nat, b: Batch, key: Key)
    ensures Rows(writes + Times(n, b), key) == Rows(writes, key) + (if b.key == key then Copies(b.entries, n) else [])
  {
    if n == 0 {
      assert writes + Times(0, b) == writes;
    } else {
      RowsOfTimes(writes, n - 1, b, key);
      RowsOneMore(writes, n, b, key);
      if b.key == key { CopiesOneMore(Rows(writes, key), b.entries, n); }
    }
  }

  /** Act k sends a batch that is taken for a replay: it was marked when the sink began, or by an earlier act. */
  predicate Known(store: Store, acts: seq<Act>, plans: seq<seq<Attempt>>, k: nat)
    requires |plans| == |acts| && k < |acts|
  {
    acts[k].Sent?
    && (Remembered(store, acts[k]) || exists j :: 0 <= j < k && Marks(acts[j], plans[j], MarkOf(acts[k].batch)))
  }

  /** The batch's mark was in the store from an earlier lifetime of the run's numbering. */
  predicate Remembered(store: Store, act: Act) {
    act.Sent? && MarkOf(act.batch) in store.marks
  }

  predicate Marks(act: Act, plan: seq<Attempt>, m: Mark) {
    act.Sent? && MarkOf(act.batch) == m && Marked(plan)
  }

  /** How often each act's batch is stored. */
  function TimesOf(store: Store, acts: seq<Act>, plans: seq<seq<Attempt>>): (times: seq<nat>)
    requires |plans| == |acts|
    ensures |times| == |acts|
  {
    seq(|acts|, k requires 0 <= k < |acts| =>
      if acts[k].Sent? && !Known(store, acts, plans, k) then Stored(plans[k]) else 0)
  }

  lemma TimesOfPrefix(store: Store, acts: seq<Act>, plans: seq<seq<Attempt>>, n: nat)
    requires n <= |acts| == |plans|
    ensures TimesOf(store, acts[..n], plans[..n]) == TimesOf(store, acts, plans)[..n]
  {
    forall k: nat | k < n
      ensures acts[..n][k].Sent? ==> Known(store, acts[..n], plans[..n], k) == Known(store, acts, plans, k)
    {
      assert forall j :: 0 <= j < k ==> acts[..n][j] == acts[j] && plans[..n][j] == plans[j];
    }
  }

  /** The marks after a lifetime, exactly. */
  lemma {:induction false} MarksAre(store: Store, acts: seq<Act>, plans: seq<seq<Attempt>>, m: Mark)
    requires |plans| == |acts|
    ensures m in Deliver(store, acts, plans).marks <==>
      m in store.marks || exists j :: 0 <= j < |acts| && Marks(acts[j], plans[j], m)
  {
    if acts != [] {
      var n := |acts| - 1;
      var before := Deliver(store, acts[..n], plans[..n]);
      MarksAre(store, acts[..n], plans[..n], m);
      assert (exists j :: 0 <= j < n && Marks(acts[..n][j], plans[..n][j], m)) <==>
        exists j :: 0 <= j < n && Marks(acts[j], plans[j], m);
      if acts[n].Sent? {
        if MarkOf(acts[n].batch) in before.marks {
          MarkedIsDropped(before, acts[n].batch, plans[n]);
        } else {
          SendWrites(before, acts[n].batch, plans[n]);
        }
      }
    }
  }

  lemma KnownIsMarked(store: Store, acts: seq<Act>, plans: seq<seq<Attempt>>, k: nat)
    requires |plans| == |acts| && k < |acts| && acts[k].Sent?
    ensures MarkOf(acts[k].batch) in Deliver(store, acts[..k], plans[..k]).marks <==> Known(store, acts, plans, k)
  {
    MarksAre(store, acts[..k], plans[..k], MarkOf(acts[k].batch));
    assert forall j :: 0 <= j < k ==> acts[..k][j] == acts[j] && plans[..k][j] == plans[j];
  }

  lemma SendRows(before: Store, b: Batch, attempts: seq<Attempt>, key: Key)
    ensures Rows(Send(before, b, attempts).0.writes, key) == Rows(before.writes, key) +
            (if b.key == key then Copies(b.entries, if MarkOf(b) in before.marks then 0 else Stored(attempts)) else [])
  {
    if MarkOf(b) in before.marks {
      MarkedIsDropped(before, b, attempts);
    } else {
      SendWrites(before, b, attempts);
      RowsOfTimes(before.writes, Stored(attempts), b, key);
    }
  }

  /** The rows of a run and kind, exactly: its batches in the order in which they were sent, none for a batch that was
      marked already, and otherwise as many copies as its own attempts wrote. */
  lemma {:induction false} StoredInOrder(store: Store, acts: seq<Act>, plans: seq<seq<Attempt>>, key: Key)
    requires |plans| == |acts|
    ensures Rows(Deliver(store, acts, plans).writes, key)
         == Rows(store.writes, key) + Replayed(acts, TimesOf(store, acts, plans), key)
  {
    if acts != [] {
      var n := |acts| - 1;
      StoredInOrder(store, acts[..n], plans[..n], key);
      TimesOfPrefix(store, acts, plans, n);
      if acts[n].Sent? {
        KnownIsMarked(store, acts, plans, n);
        SendRows(Deliver(store, acts[..n], plans[..n]), acts[n].batch, plans[n], key);
      }
    }
  }

  /** A sender that was told of success has its batch in the table: written by this send or marked before it. */
  lemma DeliveredIsStored(store: Store, acts: seq<Act>, plans: seq<seq<Attempt>>, k: nat)
    requires |plans| == |acts| && k < |acts| && acts[k].Sent? && Told(store, acts, plans, k) == Delivered
    ensures Known(store, acts, plans, k) || TimesOf(store, acts, plans)[k] >= 1
  {
    KnownIsMarked(store, acts, plans, k);
    if !Known(store, acts, plans, k) {
      SendWrites(Deliver(store, acts[..k], plans[..k]), acts[k].batch, plans[k]);
      StoredExactly(plans[k]);
    }
  }

  /** No two acts of this run carry the same number. */
  ghost predicate NumbersApart(acts: seq<Act>, run: string) {
    forall j, k :: 0 <= j < k < |acts| && OfRun(acts[j], run) && OfRun(acts[k], run) ==>
      acts[j].batch.sequence != acts[k].batch.sequence
  }

  predicate OfRun(act: Act, run: string) {
    act.Sent? && act.batch.key.run == run
  }

  lemma ApartIsUnknown(store: Store, acts: seq<Act>, plans: seq<seq<Attempt>>, k: nat, run: string)
    requires |plans| == |acts| && k < |acts| && NumbersApart(acts, run) && OfRun(acts[k], run)
    ensures Known(store, acts, plans, k) <==> Remembered(store, acts[k])
  {
    forall j | 0 <= j < k ensures !Marks(acts[j], plans[j], MarkOf(acts[k].batch)) {
      if OfRun(acts[j], run) { assert acts[j].batch.sequence != acts[k].batch.sequence; }
    }
  }

  // ---------------------------------------------------------------- end to end

  lemma {:induction false} NumberGrows(acts: seq<Act>, run: string, j: nat, k: nat)
    requires j < k <= |acts| && Forgot(run) !in acts && OfRun(acts[j], run)
    ensures SentSince(acts[..k], run) >= SentSince(acts[..j], run) + 1
    decreases k - j
  {
    assert acts[..k][..k-1] == acts[..k-1] && acts[k-1] in acts;
    if j < k - 1 { NumberGrows(acts, run, j, k - 1); }
  }

  lemma OneLifetimeNumbersApart(ops: seq<Op>, run: string)
    requires ForgetRun(run) !in ops
    ensures NumbersApart(Exec(ops).acts, run)
  {
    var acts := Exec(ops).acts;
    AlwaysOk(ops);
    NotForgotten(ops, run);
    forall j: nat, k: nat | j < k < |acts| && OfRun(acts[j], run) && OfRun(acts[k], run)
      ensures acts[j].batch.sequence != acts[k].batch.sequence
    {
      assert NumberedAt(acts, j) && NumberedAt(acts, k);
      NumberGrows(acts, run, j, k);
    }
  }

  lemma {:induction false} ReplayedOnce(acts: seq<Act>, times: seq<nat>, key: Key)
    requires |times| == |acts|
    requires forall k :: 0 <= k < |acts| && acts[k].Sent? && acts[k].batch.key == key ==> times[k] == 1
    ensures Replayed(acts, times, key) == Handed(acts, key)
  {
    if acts != [] {
      ReplayedOnce(acts[..|acts|-1], times[..|acts|-1], key);
      if acts[|acts|-1].Sent? { assert Copies(acts[|acts|-1].batch.entries, 1) == acts[|acts|-1].batch.entries; }
    }
  }

  /** Every send of this run and kind got through, and no write succeeded without its mark. */
  ghost predicate GotThrough(store: Store, acts: seq<Act>, plans: seq<seq<Attempt>>, key: Key)
    requires |plans| == |acts|
  {
    forall k :: 0 <= k < |acts| && acts[k].Sent? && acts[k].batch.key == key ==>
      && (Told(store, acts, plans, k) == Delivered || Marked(plans[k]))
      && Failing(plans[k]) == 0
      && !Remembered(store, acts[k])
  }

  lemma StoredOnce(store: Store, acts: seq<Act>, plans: seq<seq<Attempt>>, key: Key, k: nat)
    requires |plans| == |acts| && NumbersApart(acts, key.run) && GotThrough(store, acts, plans, key)
    requires k < |acts| && acts[k].Sent? && acts[k].batch.key == key
    ensures TimesOf(store, acts, plans)[k] == 1
  {
    ApartIsUnknown(store, acts, plans, k, key.run);
    StoredExactly(plans[k]);
    if Told(store, acts, plans, k) == Delivered { DeliveredIsStored(store, acts, plans, k); }
  }

  /** From `emit` to the table: when nothing is left in the buffer, the rows stored for a run and kind are the
      entries that were emitted, each once and in order, whatever requests and answers were lost on the way. */
  lemma EndToEnd(ops: seq<Op>, store: Store, plans: seq<seq<Attempt>>, key: Key)
    requires ForgetRun(key.run) !in ops && |plans| == |Exec(ops).acts| && Pending(Exec(ops), key) == []
    requires GotThrough(store, Exec(ops).acts, plans, key)
    ensures Rows(Deliver(store, Exec(ops).acts, plans).writes, key) == Rows(store.writes, key) + Emitted(ops, key)
  {
    var acts := Exec(ops).acts;
    OneLifetimeNumbersApart(ops, key.run);
    StoredInOrder(store, acts, plans, key);
    forall k: nat | k < |acts| && acts[k].Sent? && acts[k].batch.key == key
      ensures TimesOf(store, acts, plans)[k] == 1
    {
      StoredOnce(store, acts, plans, key, k);
    }
    ReplayedOnce(acts, TimesOf(store, acts, plans), key);
    Conservation(ops, key);
  }

  /** In particular at the end of a run: when its last operation is the flush of the run, nothing need be assumed of
      what waits, and every entry that was ever emitted for the run is in the table. */
  lemma EndToEndAfterFlush(ops: seq<Op>, store: Store, plans: seq<seq<Attempt>>, key: Key)
    requires ForgetRun(key.run) !in ops && |plans| == |Exec(ops + [FlushRun(key.run)]).acts|
    requires GotThrough(store, Exec(ops + [FlushRun(key.run)]).acts, plans, key)
    ensures Rows(Deliver(store, Exec(ops + [FlushRun(key.run)]).acts, plans).writes, key)
         == Rows(store.writes, key) + Emitted(ops, key)
  {
    var all := ops + [FlushRun(key.run)];
    assert all[..|all|-1] == ops && forall op :: op in all ==> op in ops || op == FlushRun(key.run);
    AlwaysOk(ops);
    FlushRunEmpties(Exec(ops), key.run, key);
    EndToEnd(all, store, plans, key);
  }

  // ---------------------------------------------------------------- a second lifetime

  /** When a run's numbering starts again, in a retry of the run or after the run was forgotten, a batch of the second
      lifetime is taken for a replay if and only if the first one got a batch of the same kind and number marked. */
  lemma SecondLifetimeRemembered(acts1: seq<Act>, plans1: seq<seq<Attempt>>, act: Act)
    requires |plans1| == |acts1| && act.Sent?
    ensures Remembered(Deliver(Store([], {}), acts1, plans1), act) <==>
      exists j :: 0 <= j < |acts1| && Marks(acts1[j], plans1[j], MarkOf(act.batch))
  {
    MarksAre(Store([], {}), acts1, plans1, MarkOf(act.batch));
  }

  lemma {:induction false} CopiesAreSome(entries: seq<Entry>, n: nat)
    requires entries != []
    ensures Copies(entries, n) == [] <==> n == 0
  {
    if n > 0 { CopiesAreSome(entries, n - 1); }
  }

  lemma {:induction false} ReplayedNever(acts: seq<Act>, times: seq<nat>, key: Key)
    requires |times| == |acts| && forall k :: 0 <= k < |acts| && acts[k].Sent? ==> acts[k].batch.entries != []
    ensures Replayed(acts, times, key) == [] <==>
      forall k :: 0 <= k < |acts| && acts[k].Sent? && acts[k].batch.key == key ==> times[k] == 0
  {
    if acts != [] {
      var n := |acts| - 1;
      ReplayedNever(acts[..n], times[..n], key);
      assert forall k :: 0 <= k < n ==> acts[..n][k] == acts[k] && times[..n][k] == times[k];
      if acts[n].Sent? { CopiesAreSome(acts[n].batch.entries, times[n]); }
    }
  }

  /** A retried run leaves no row of its kind, whatever it emitted, if and only if each of its batches was written by no
      attempt or carries a number that its first lifetime got marked. */
  lemma RetryLeavesNoRow(acts1: seq<Act>, plans1: seq<seq<Attempt>>, ops2: seq<Op>, plans2: seq<seq<Attempt>>, key: Key)
    requires |plans1| == |acts1| && |plans2| == |Exec(ops2).acts| && ForgetRun(key.run) !in ops2
    ensures var store := Deliver(Store([], {}), acts1, plans1); var acts2 := Exec(ops2).acts;
      Rows(Deliver(store, acts2, plans2).writes, key) == Rows(store.writes, key) <==>
      forall k :: 0 <= k < |acts2| && acts2[k].Sent? && acts2[k].batch.key == key ==>
        Stored(plans2[k]) == 0 || exists j :: 0 <= j < |acts1| && Marks(acts1[j], plans1[j], MarkOf(acts2[k].batch))
  {
    var store, acts2 := Deliver(Store([], {}), acts1, plans1), Exec(ops2).acts;
    var times := TimesOf(store, acts2, plans2);
    OneLifetimeNumbersApart(ops2, key.run);
    StoredInOrder(store, acts2, plans2, key);
    forall k: nat | k < |acts2| && acts2[k].Sent? ensures acts2[k].batch.entries != [] {
      AlwaysOk(ops2);
      assert NumberedAt(acts2, k);
    }
    forall k: nat | k < |acts2| && acts2[k].Sent? && acts2[k].batch.key == key
      ensures times[k] == 0 <==>
        Stored(plans2[k]) == 0 || exists j :: 0 <= j < |acts1| && Marks(acts1[j], plans1[j], MarkOf(acts2[k].batch))
    {
      ApartIsUnknown(store, acts2, plans2, k, key.run);
      SecondLifetimeRemembered(acts1, plans1, acts2[k]);
    }
    ReplayedNever(acts2, times, key);
    NothingAdded(Rows(store.writes, key), Replayed(acts2, times, key));
  }

  lemma NothingAdded(rows: seq<Entry>, more: seq<Entry>)
    ensures rows + more == rows <==> more == []
  {
    assert |rows + more| == |rows| + |more|;
  }
}
