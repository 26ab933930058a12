/** Batching of log entries: the sink of the worker agent, with one buffer per run and kind. */
module LogSinks {

  /** In microseconds. */
  type Time = int

  /** A log entry, with the length of its JSON text. */
  datatype Entry = Entry(content: string, size: nat)

  datatype Kind = Logs | Console

  datatype Key = Key(run: string, kind: Kind)

  datatype Batch = Batch(key: Key, sequence: nat, entries: seq<Entry>)

  datatype Buffer = Buffer(firstAt: Time, entries: seq<Entry>, byteSize: nat)

  const FLUSH_INTERVAL: nat := 2_000_000
  const FLUSH_MAX_ENTRIES: nat := 100
  const FLUSH_MAX_BYTES: nat := 64 * 1024

  /** What the sink did that others can see: a batch handed to `_send`, or a run's numbering dropped. */
  datatype Act = Sent(batch: Batch) | Forgot(run: string)

  /** `keys` is the insertion order of the buffer dictionary. */
  datatype Sink = Sink(keys: seq<Key>, buffers: map<Key, Buffer>, sequences: map<string, nat>, acts: seq<Act>)

  function Bytes(entries: seq<Entry>): nat {
    if entries == [] then 0 else Bytes(entries[..|entries|-1]) + entries[|entries|-1].size
  }

  lemma BytesSnoc(entries: seq<Entry>, e: Entry)
    ensures Bytes(entries + [e]) == Bytes(entries) + e.size
  {
  }

  function Last(sequences: map<string, nat>, run: string): nat {
    if run in sequences then sequences[run] else 0
  }

  /** The list of keys without one of them. */
  function Minus(keys: seq<Key>, key: Key): seq<Key> {
    if keys == [] then [] else
    var front := Minus(keys[..|keys|-1], key);
    if keys[|keys|-1] == key then front else front + [keys[|keys|-1]]
  }

  // ---------------------------------------------------------------- the operations

  /** Pop one buffer and send it. */
  function Flushed(s: Sink, key: Key): Sink {
    if key !in s.buffers then s else
    var popped := s.(keys := Minus(s.keys, key), buffers := s.buffers - {key});
    if s.buffers[key].entries == [] then popped else
    var sequence := Last(s.sequences, key.run) + 1;
    popped.(sequences := s.sequences[key.run := sequence],
            acts := s.acts + [Sent(Batch(key, sequence, s.buffers[key].entries))])
  }

  function FlushedAll(s: Sink, keys: seq<Key>): Sink {
    if keys == [] then s else Flushed(FlushedAll(s, keys[..|keys|-1]), keys[|keys|-1])
  }

  function Full(b: Buffer): bool {
    |b.entries| >= FLUSH_MAX_ENTRIES || b.byteSize >= FLUSH_MAX_BYTES
  }

  function Appended(s: Sink, key: Key, e: Entry, now: Time): Sink {
    var b := if key in s.buffers then s.buffers[key] else Buffer(now, [], 0);
    s.(keys := if key in s.buffers then s.keys else s.keys + [key],
       buffers := s.buffers[key := Buffer(b.firstAt, b.entries + [e], b.byteSize + e.size)])
  }

  function Added(s: Sink, key: Key, e: Entry, now: Time): Sink {
    var next := Appended(s, key, e, now);
    if Full(next.buffers[key]) then Flushed(next, key) else next
  }

  datatype Op =
    | Emit(key: Key, entry: Entry, at: Time)
    | FlushRun(run: string)
    | FlushEverything
    | FlushExpired(at: Time)
    | ForgetRun(run: string)

  function Chosen(s: Sink, keys: seq<Key>, op: Op): seq<Key> {
    if keys == [] then [] else
    var front, key := Chosen(s, keys[..|keys|-1], op), keys[|keys|-1];
    var take := match op
      case FlushRun(run) => key.run == run
      case FlushEverything => true
      case FlushExpired(at) => key in s.buffers && at - s.buffers[key].firstAt >= FLUSH_INTERVAL
      case _ => false;
    if take then front + [key] else front
  }

  function Next(s: Sink, op: Op): Sink {
    match op
    case Emit(key, e, at) => Added(s, key, e, at)
    case ForgetRun(run) => s.(sequences := s.sequences - {run}, acts := s.acts + [Forgot(run)])
    case _ => FlushedAll(s, Chosen(s, s.keys, op))
  }

  const EMPTY := Sink([], map[], map[], [])

  function Exec(ops: seq<Op>): Sink {
    if ops == [] then EMPTY else Next(Exec(ops[..|ops|-1]), ops[|ops|-1])
  }

  // ---------------------------------------------------------------- what the sink promises

  function Pending(s: Sink, key: Key): seq<Entry> {
    if key in s.buffers then s.buffers[key].entries else []
  }

  /** All entries of one run and kind that were handed to `_send`, in order. */
  function Handed(acts: seq<Act>, key: Key): seq<Entry> {
    if acts == [] then [] else
    var front, last := Handed(acts[..|acts|-1], key), acts[|acts|-1];
    if last.Sent? && last.batch.key == key then front + last.batch.entries else front
  }

  function Emitted(ops: seq<Op>, key: Key): seq<Entry> {
    if ops == [] then [] else
    var front, last := Emitted(ops[..|ops|-1], key), ops[|ops|-1];
    if last.Emit? && last.key == key then front + [last.entry] else front
  }

  /** Batches of a run, of either kind, since its numbering was last dropped. */
  function SentSince(acts: seq<Act>, run: string): nat {
    if acts == [] then 0 else
    match acts[|acts|-1]
    case Sent(b) => SentSince(acts[..|acts|-1], run) + (if b.key.run == run then 1 else 0)
    case Forgot(r) => if r == run then 0 else SentSince(acts[..|acts|-1], run)
  }

  /** A batch is never empty, has at most 100 entries, and would have gone earlier without its last entry. */
  ghost predicate WellFormed(entries: seq<Entry>) {
    1 <= |entries| <= FLUSH_MAX_ENTRIES && Bytes(entries[..|entries|-1]) < FLUSH_MAX_BYTES
  }

  /** Act k carries the number of its batch within its run. */
  ghost predicate NumberedAt(acts: seq<Act>, k: nat)
    requires k < |acts|
  {
    acts[k].Sent? ==>
      && acts[k].batch.sequence == SentSince(acts[..k], acts[k].batch.key.run) + 1
      && WellFormed(acts[k].batch.entries)
  }

  ghost predicate Resting(b: Buffer) {
    b.entries != [] && b.byteSize == Bytes(b.entries) && !Full(b)
  }

  ghost predicate Apart(keys: seq<Key>) {
    forall j, k :: 0 <= j < k < |keys| ==> keys[j] != keys[k]
  }

  ghost predicate KeysOk(s: Sink) {
    && Apart(s.keys)
    && (forall key :: key in s.keys <==> key in s.buffers)
  }

  ghost predicate Ok(s: Sink) {
    && KeysOk(s)
    && (forall key :: key in s.buffers ==> Resting(s.buffers[key]))
    && (forall run :: Last(s.sequences, run) == SentSince(s.acts, run))
    && (forall k: nat {:trigger NumberedAt(s.acts, k)} :: k < |s.acts| ==> NumberedAt(s.acts, k))
  }

  lemma {:induction false} MinusIs(keys: seq<Key>, key: Key)
    ensures forall k :: k in Minus(keys, key) <==> k in keys && k != key
    ensures Apart(keys) ==> Apart(Minus(keys, key))
  {
    if keys != [] {
      MinusIs(keys[..|keys|-1], key);
      if Apart(keys) { assert keys[|keys|-1] !in keys[..|keys|-1]; }
    }
  }

  lemma ActKeeps(acts: seq<Act>, act: Act)
    requires forall k: nat {:trigger NumberedAt(acts, k)} :: k < |acts| ==> NumberedAt(acts, k)
    requires act.Sent? ==> act.batch.sequence == SentSince(acts, act.batch.key.run) + 1 && WellFormed(act.batch.entries)
    ensures forall k: nat {:trigger NumberedAt(acts + [act], k)} :: k < |acts + [act]| ==> NumberedAt(acts + [act], k)
    ensures act.Sent? ==>
      forall run :: SentSince(acts + [act], run) == SentSince(acts, run) + (if act.batch.key.run == run then 1 else 0)
    ensures act.Forgot? ==>
      forall run :: SentSince(acts + [act], run) == if act.run == run then 0 else SentSince(acts, run)
  {
    var acts' := acts + [act];
    assert acts'[..|acts|] == acts;
    forall k: nat | k < |acts'| ensures NumberedAt(acts', k) {
      if k < |acts| {
        assert NumberedAt(acts, k) && acts'[..k] == acts[..k];
      }
    }
  }

  /** A buffer that is about to go: resting, or filled by its last entry. */
  ghost predicate Ready(b: Buffer) {
    b.entries != [] && b.byteSize == Bytes(b.entries) && WellFormed(b.entries)
  }

  lemma RestingIsReady(b: Buffer)
    requires Resting(b)
    ensures Ready(b)
  {
  }

  lemma FlushKeeps(s: Sink, key: Key)
    requires KeysOk(s) && key in s.buffers && Ready(s.buffers[key])
    requires forall k :: k in s.buffers && k != key ==> Resting(s.buffers[k])
    requires forall run :: Last(s.sequences, run) == SentSince(s.acts, run)
    requires forall k: nat {:trigger NumberedAt(s.acts, k)} :: k < |s.acts| ==> NumberedAt(s.acts, k)
    ensures Ok(Flushed(s, key)) && key !in Flushed(s, key).buffers
  {
    MinusIs(s.keys, key);
    ActKeeps(s.acts, Sent(Batch(key, Last(s.sequences, key.run) + 1, s.buffers[key].entries)));
  }

  lemma {:induction false} FlushAllKeeps(s: Sink, keys: seq<Key>)
    requires Ok(s)
    ensures Ok(FlushedAll(s, keys))
  {
    if keys != [] {
      FlushAllKeeps(s, keys[..|keys|-1]);
      var before, key := FlushedAll(s, keys[..|keys|-1]), keys[|keys|-1];
      if key in before.buffers {
        RestingIsReady(before.buffers[key]);
        FlushKeeps(before, key);
      }
    }
  }

  lemma AddKeeps(s: Sink, key: Key, e: Entry, now: Time)
    requires Ok(s)
    ensures Ok(Added(s, key, e, now))
  {
    var next := Appended(s, key, e, now);
    var before := Pending(s, key);
    BytesSnoc(before, e);
    assert next.buffers[key].entries[..|before|] == before;
    assert KeysOk(next);
    if Full(next.buffers[key]) { FlushKeeps(next, key); }
  }

  lemma NextKeeps(s: Sink, op: Op)
    requires Ok(s)
    ensures Ok(Next(s, op))
  {
    match op
    case Emit(key, e, at) => AddKeeps(s, key, e, at);
    case ForgetRun(run) => ActKeeps(s.acts, Forgot(run));
    case _ => FlushAllKeeps(s, Chosen(s, s.keys, op));
  }

  /** Whatever is emitted, flushed, expired and forgotten, in any order: batches are numbered 1, 2, 3, ... per
      run across both kinds until the run is forgotten, every batch is well formed, and a resting buffer is
      under both thresholds. */
  lemma {:induction false} AlwaysOk(ops: seq<Op>)
    ensures Ok(Exec(ops))
  {
    if ops != [] {
      AlwaysOk(ops[..|ops|-1]);
      NextKeeps(Exec(ops[..|ops|-1]), ops[|ops|-1]);
    }
  }

  // ---------------------------------------------------------------- conservation

  function Accounted(s: Sink, key: Key): seq<Entry> {
    Handed(s.acts, key) + Pending(s, key)
  }

  lemma FlushMoves(s: Sink, key: Key, k: Key)
    ensures Accounted(Flushed(s, key), k) == Accounted(s, k)
  {
    if key in s.buffers && s.buffers[key].entries != [] {
      var last := Sent(Batch(key, Last(s.sequences, key.run) + 1, s.buffers[key].entries));
      assert (s.acts + [last])[..|s.acts|] == s.acts;
    }
  }

  lemma {:induction false} FlushAllMoves(s: Sink, keys: seq<Key>, k: Key)
    ensures Accounted(FlushedAll(s, keys), k) == Accounted(s, k)
  {
    if keys != [] {
      FlushAllMoves(s, keys[..|keys|-1], k);
      FlushMoves(FlushedAll(s, keys[..|keys|-1]), keys[|keys|-1], k);
    }
  }

  lemma AppendMoves(s: Sink, key: Key, e: Entry, now: Time, k: Key)
    ensures Accounted(Appended(s, key, e, now), k) == Accounted(s, k) + (if k == key then [e] else [])
  {
  }

  lemma AddMoves(s: Sink, key: Key, e: Entry, now: Time, k: Key)
    ensures Accounted(Added(s, key, e, now), k) == Accounted(s, k) + (if k == key then [e] else [])
  {
    AppendMoves(s, key, e, now, k);
    FlushMoves(Appended(s, key, e, now), key, k);
  }

  /** No entry is lost, duplicated or reordered before `_send`: what was handed over for a run and kind,
      followed by what still waits, is what was emitted. */
  lemma {:induction false} Conservation(ops: seq<Op>, key: Key)
    ensures Handed(Exec(ops).acts, key) + Pending(Exec(ops), key) == Emitted(ops, key)
  {
    if ops != [] {
      var prefix, op := ops[..|ops|-1], ops[|ops|-1];
      Conservation(prefix, key);
      match op
      case Emit(k, e, at) => AddMoves(Exec(prefix), k, e, at, key);
      case ForgetRun(run) =>
        var acts := Exec(prefix).acts;
        assert (acts + [Forgot(run)])[..|acts|] == acts;
      case _ => FlushAllMoves(Exec(prefix), Chosen(Exec(prefix), Exec(prefix).keys, op), key);
    }
  }

  // ---------------------------------------------------------------- one numbering

  /** The batches of a run, of both kinds, in the order in which they were handed over. */
  function BatchesOf(acts: seq<Act>, run: string): seq<Batch> {
    if acts == [] then [] else
    var front, last := BatchesOf(acts[..|acts|-1], run), acts[|acts|-1];
    if last.Sent? && last.batch.key.run == run then front + [last.batch] else front
  }

  lemma NumberedPrefix(acts: seq<Act>)
    requires acts != [] && forall k: nat {:trigger NumberedAt(acts, k)} :: k < |acts| ==> NumberedAt(acts, k)
    ensures var front := acts[..|acts|-1];
      forall k: nat {:trigger NumberedAt(front, k)} :: k < |front| ==> NumberedAt(front, k)
  {
    var front := acts[..|acts|-1];
    forall k: nat | k < |front| ensures NumberedAt(front, k) {
      assert NumberedAt(acts, k) && front[..k] == acts[..k];
    }
  }

  lemma {:induction false} NumbersOfActs(acts: seq<Act>, run: string)
    requires forall k: nat {:trigger NumberedAt(acts, k)} :: k < |acts| ==> NumberedAt(acts, k)
    requires Forgot(run) !in acts
    ensures SentSince(acts, run) == |BatchesOf(acts, run)|
    ensures forall j :: 0 <= j < |BatchesOf(acts, run)| ==> BatchesOf(acts, run)[j].sequence == j + 1
  {
    if acts != [] {
      var front := acts[..|acts|-1];
      NumberedPrefix(acts);
      assert acts[|acts|-1] in acts && forall a :: a in front ==> a in acts;
      NumbersOfActs(front, run);
      assert NumberedAt(acts, |acts| - 1);
    }
  }

  lemma {:induction false} NotForgotten(ops: seq<Op>, run: string)
    requires ForgetRun(run) !in ops
    ensures Forgot(run) !in Exec(ops).acts
  {
    if ops != [] {
      NotForgotten(ops[..|ops|-1], run);
      assert ops[|ops|-1] in ops;
      NextForgets(Exec(ops[..|ops|-1]), ops[|ops|-1], run);
    }
  }

  lemma NextForgets(s: Sink, op: Op, run: string)
    requires Forgot(run) !in s.acts && op != ForgetRun(run)
    ensures Forgot(run) !in Next(s, op).acts
  {
    match op
    case Emit(_, _, _) =>
    case ForgetRun(_) =>
    case _ => FlushAllForgets(s, Chosen(s, s.keys, op), run);
  }

  lemma {:induction false} FlushAllForgets(s: Sink, keys: seq<Key>, run: string)
    requires Forgot(run) !in s.acts
    ensures Forgot(run) !in FlushedAll(s, keys).acts
  {
    if keys != [] { FlushAllForgets(s, keys[..|keys|-1], run); }
  }

  /** Until a run is forgotten its batches are numbered 1, 2, 3, ... */
  lemma NumberedFromOne(ops: seq<Op>, run: string)
    requires ForgetRun(run) !in ops
    ensures forall j :: 0 <= j < |BatchesOf(Exec(ops).acts, run)| ==>
      BatchesOf(Exec(ops).acts, run)[j].sequence == j + 1
  {
    AlwaysOk(ops);
    NotForgotten(ops, run);
    NumbersOfActs(Exec(ops).acts, run);
  }
}
