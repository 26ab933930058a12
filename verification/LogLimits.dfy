/** The server's limits on one batch, and why no batch that a client forms exceeds them. */
module LogLimits {
  import opened LogSinks

  const LOG_BATCH_MAX_ENTRIES: nat := 500
  const LOG_BATCH_MAX_BYTES: nat := 256 * 1024

  /** No client forms a batch over the limits while its entries are at most this long. */
  const SAFE_ENTRY_BYTES: nat := 196_409

  /** The members of a JSON list, separated by a comma and a blank. */
  function Joined(entries: seq<Entry>): nat {
    if entries == [] then 0
    else if |entries| == 1 then entries[0].size
    else Joined(entries[..|entries|-1]) + 2 + entries[|entries|-1].size
  }

  function ListSize(entries: seq<Entry>): nat {
    1 + Joined(entries) + 1
  }

  /** `validate_batch_limits`. */
  predicate Accepts(entries: seq<Entry>) {
    |entries| <= LOG_BATCH_MAX_ENTRIES && ListSize(entries) <= LOG_BATCH_MAX_BYTES
  }

  lemma {:induction false} ListSizeIs(entries: seq<Entry>)
    requires entries != []
    ensures ListSize(entries) == Bytes(entries) + 2 * |entries|
  {
    if |entries| > 1 {
      ListSizeIs(entries[..|entries|-1]);
    } else {
      assert Bytes(entries) == Bytes(entries[..0]) + entries[0].size;
    }
  }

  /** A batch is accepted if and only if it has at most 500 entries and these, with two characters for each of them,
      have at most 256 KiB. */
  lemma AcceptsExactly(entries: seq<Entry>)
    ensures Accepts(entries) <==> |entries| <= 500 && Bytes(entries) + 2 * |entries| <= 262_144
  {
    if entries != [] { ListSizeIs(entries); }
  }

  ghost predicate Within(entries: seq<Entry>, bound: nat) {
    forall e :: e in entries ==> e.size <= bound
  }

  lemma WellFormedFits(entries: seq<Entry>)
    requires WellFormed(entries) && Within(entries, SAFE_ENTRY_BYTES)
    ensures Accepts(entries)
  {
    ListSizeIs(entries);
    assert entries[|entries|-1] in entries;
  }

  lemma {:induction false} HandedHas(acts: seq<Act>, b: Batch)
    requires Sent(b) in acts
    ensures forall e :: e in b.entries ==> e in Handed(acts, b.key)
  {
    if acts[|acts|-1] != Sent(b) {
      assert Sent(b) in acts[..|acts|-1];
      HandedHas(acts[..|acts|-1], b);
    }
  }

  lemma {:induction false} EmittedWithin(ops: seq<Op>, key: Key, bound: nat)
    requires OpsWithin(ops, bound)
    ensures Within(Emitted(ops, key), bound)
  {
    if ops != [] {
      assert ops[|ops|-1] in ops;
      assert forall op :: op in ops[..|ops|-1] ==> op in ops;
      EmittedWithin(ops[..|ops|-1], key, bound);
    }
  }

  ghost predicate OpsWithin(ops: seq<Op>, bound: nat) {
    forall op :: op in ops && op.Emit? ==> op.entry.size <= bound
  }

  ghost predicate AllAccepted(s: Sink) {
    forall b :: Sent(b) in s.acts ==> Accepts(b.entries)
  }

  lemma BatchesFit(ops: seq<Op>, bound: nat)
    requires OpsWithin(ops, bound) && bound <= SAFE_ENTRY_BYTES
    ensures AllAccepted(Exec(ops))
  {
    var acts := Exec(ops).acts;
    forall b | Sent(b) in acts ensures Accepts(b.entries) {
      AlwaysOk(ops);
      var k: nat :| k < |acts| && acts[k] == Sent(b);
      assert NumberedAt(acts, k);
      HandedHas(acts, b);
      Conservation(ops, b.key);
      EmittedWithin(ops, b.key, bound);
      WellFormedFits(b.entries);
    }
  }

  // ---------------------------------------------------------------- the bound is exact

  function Emits(key: Key, entries: seq<Entry>): seq<Op> {
    if entries == [] then [] else Emits(key, entries[..|entries|-1]) + [Emit(key, entries[|entries|-1], 0)]
  }

  lemma {:induction false} EmitsWait(key: Key, entries: seq<Entry>)
    requires |entries| < FLUSH_MAX_ENTRIES && Bytes(entries) < FLUSH_MAX_BYTES
    ensures Pending(Exec(Emits(key, entries)), key) == entries && Exec(Emits(key, entries)).acts == []
    ensures key in Exec(Emits(key, entries)).buffers ==>
      Exec(Emits(key, entries)).buffers[key].byteSize == Bytes(entries)
  {
    if entries != [] {
      var front, ops := entries[..|entries|-1], Emits(key, entries);
      EmitsWait(key, front);
      assert ops[..|ops|-1] == Emits(key, front);
      assert entries == front + [entries[|entries|-1]];
    }
  }

  lemma {:induction false} RepeatedBytes(n: nat, e: Entry)
    ensures Bytes(seq(n, _ => e)) == n * e.size
  {
    if n > 0 {
      RepeatedBytes(n - 1, e);
      assert seq(n, _ => e)[..n - 1] == seq(n - 1, _ => e);
    }
  }

  lemma {:induction false} EmitsAre(key: Key, entries: seq<Entry>)
    ensures |Emits(key, entries)| == |entries|
    ensures forall k :: 0 <= k < |entries| ==> Emits(key, entries)[k] == Emit(key, entries[k], 0)
  {
    if entries != [] { EmitsAre(key, entries[..|entries|-1]); }
  }

  /** 99 entries of 65,535 bytes in all, which do not fill the buffer. */
  lemma AlmostFull() returns (front: seq<Entry>)
    ensures |front| == 99 && Bytes(front) == 65_535 && forall k :: 0 <= k < 99 ==> front[k].size <= 757
  {
    var small, rest := Entry("", 661), Entry("", 757);
    front := seq(98, _ => small) + [rest];
    RepeatedBytes(98, small);
    BytesSnoc(seq(98, _ => small), rest);
  }

  /** When one more entry fills a waiting buffer, all of it goes out as one batch. */
  lemma OneMoreShips(key: Key, front: seq<Entry>, last: Entry)
    requires |front| == 99 && Bytes(front) == 65_535
    ensures Sent(Batch(key, 1, front + [last])) in Exec(Emits(key, front) + [Emit(key, last, 0)]).acts
  {
    var ops := Emits(key, front) + [Emit(key, last, 0)];
    EmitsWait(key, front);
    assert ops[..|ops|-1] == Emits(key, front);
    AlwaysOk(Emits(key, front));
    assert Added(Exec(Emits(key, front)), key, last, 0).acts == [] + [Sent(Batch(key, 1, front + [last]))];
  }

  /** One more entry of 196,410 bytes makes a batch that is too long. */
  lemma OverlongBatch(key: Key) returns (ops: seq<Op>)
    ensures OpsWithin(ops, SAFE_ENTRY_BYTES + 1) && !AllAccepted(Exec(ops))
  {
    var front := AlmostFull();
    var last := Entry("", SAFE_ENTRY_BYTES + 1);
    ops := Emits(key, front) + [Emit(key, last, 0)];
    EmitsAre(key, front);
    OneMoreShips(key, front, last);
    BytesSnoc(front, last);
    ListSizeIs(front + [last]);
  }

  ghost predicate SafeBound(bound: nat) {
    forall ops: seq<Op> :: OpsWithin(ops, bound) ==> AllAccepted(Exec(ops))
  }

  /** Every batch of every sink is accepted by the server, whatever happens, if and only if entries are
      kept to at most 196,409 bytes. */
  lemma BoundIsExact(bound: nat)
    ensures SafeBound(bound) <==> bound <= SAFE_ENTRY_BYTES
  {
    if bound <= SAFE_ENTRY_BYTES {
      forall ops: seq<Op> | OpsWithin(ops, bound) ensures AllAccepted(Exec(ops)) { BatchesFit(ops, bound); }
    } else {
      var ops := OverlongBatch(Key("r", Logs));
      assert OpsWithin(ops, bound);
    }
  }
}
