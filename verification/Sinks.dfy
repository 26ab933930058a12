/** The agent's sink and the SDK's log client in their own form. */
module Sinks {
  import opened LogSinks

  class BatchingLogSink {
    var keys: seq<Key>
    var buffers: map<Key, Buffer>
    var sequences: map<string, nat>
    ghost var acts: seq<Act>

    constructor ()
      ensures Snapshot() == EMPTY && Valid()
    {
      keys := [];
      buffers := map[];
      sequences := map[];
      acts := [];
      new;
      AlwaysOk([]);
    }

    ghost function Snapshot(): Sink
      reads this
    {
      Sink(keys, buffers, sequences, acts)
    }

    ghost predicate Valid()
      reads this
    {
      Ok(Snapshot())
    }

    /** Pops a buffer; `_send` is handed its entries, and whatever becomes of them the number is used. */
    method FlushLocked(key: Key)
      modifies this
      ensures Snapshot() == Flushed(old(Snapshot()), key)
    {
      if key !in buffers {
        return;
      }
      var buffer := buffers[key];
      keys := Minus(keys, key);
      buffers := buffers - {key};
      if buffer.entries == [] {
        return;
      }
      var sequence := if key.run in sequences then sequences[key.run] + 1 else 1;
      sequences := sequences[key.run := sequence];
      acts := acts + [Sent(Batch(key, sequence, buffer.entries))];
    }

    method FlushKeys(chosen: seq<Key>)
      modifies this
      ensures Snapshot() == FlushedAll(old(Snapshot()), chosen)
    {
      for k := 0 to |chosen|
        invariant Snapshot() == FlushedAll(old(Snapshot()), chosen[..k])
      {
        assert chosen[..k+1][..k] == chosen[..k];
        FlushLocked(chosen[k]);
      }
      assert chosen[..|chosen|] == chosen;
    }

    method Append(key: Key, entry: Entry, now: Time) returns (full: bool)
      modifies this`keys, this`buffers
      ensures Snapshot() == Appended(old(Snapshot()), key, entry, now)
      ensures full == Full(buffers[key])
    {
      if key !in buffers {
        keys := keys + [key];
        buffers := buffers[key := Buffer(now, [], 0)];
      }
      var buffer := buffers[key];
      buffer := buffer.(entries := buffer.entries + [entry], byteSize := buffer.byteSize + entry.size);
      buffers := buffers[key := buffer];
      full := |buffer.entries| >= FLUSH_MAX_ENTRIES || buffer.byteSize >= FLUSH_MAX_BYTES;
    }

    method Add(key: Key, entry: Entry, now: Time)
      requires Valid()
      modifies this
      ensures Valid() && Snapshot() == Next(old(Snapshot()), Emit(key, entry, now))
    {
      NextKeeps(Snapshot(), Emit(key, entry, now));
      var full := Append(key, entry, now);
      if full {
        FlushLocked(key);
      }
    }

    /** One run, or all of them. */
    method Flush(run: string, all: bool)
      requires Valid()
      modifies this
      ensures Valid() && Snapshot() == Next(old(Snapshot()), if all then FlushEverything else FlushRun(run))
    {
      ghost var op := if all then FlushEverything else FlushRun(run);
      NextKeeps(Snapshot(), op);
      var chosen: seq<Key> := [];
      for k := 0 to |keys|
        invariant chosen == Chosen(Snapshot(), keys[..k], op)
      {
        assert keys[..k+1][..k] == keys[..k];
        if all || keys[k].run == run {
          chosen := chosen + [keys[k]];
        }
      }
      assert keys[..|keys|] == keys;
      FlushKeys(chosen);
    }

    method MaybeFlushExpired(now: Time)
      requires Valid()
      modifies this
      ensures Valid() && Snapshot() == Next(old(Snapshot()), FlushExpired(now))
    {
      NextKeeps(Snapshot(), FlushExpired(now));
      var expired: seq<Key> := [];
      for k := 0 to |keys|
        invariant expired == Chosen(Snapshot(), keys[..k], FlushExpired(now))
      {
        assert keys[..k+1][..k] == keys[..k];
        assert keys[k] in keys;
        if now - buffers[keys[k]].firstAt >= FLUSH_INTERVAL {
          expired := expired + [keys[k]];
        }
      }
      assert keys[..|keys|] == keys;
      FlushKeys(expired);
    }

    method ForgetRunOf(run: string)
      requires Valid()
      modifies this
      ensures Valid() && Snapshot() == Next(old(Snapshot()), ForgetRun(run))
    {
      NextKeeps(Snapshot(), ForgetRun(run));
      sequences := sequences - {run};
      acts := acts + [Forgot(run)];
    }
  }

  // ---------------------------------------------------------------- inside the container

  /** All entries of some batches. */
  function Shipped(batches: seq<seq<Entry>>): seq<Entry> {
    if batches == [] then [] else Shipped(batches[..|batches|-1]) + batches[|batches|-1]
  }

  /** One run's structured log; also flushed from `add` when the last flush is long ago. */
  class LogClient {
    const flushInterval: nat
    var entries: seq<Entry>
    var bufferedBytes: nat
    var sequence: nat
    var lastFlush: Time
    ghost var batches: seq<seq<Entry>>
    ghost var added: seq<Entry>

    constructor (flushInterval: nat, now: Time)
      ensures Valid() && added == []
    {
      this.flushInterval := flushInterval;
      entries, bufferedBytes, sequence, lastFlush := [], 0, 0, now;
      batches, added := [], [];
    }

    /** Batch k carries number k + 1; batches are well formed; nothing that was added is lost or reordered. */
    ghost predicate Valid()
      reads this
    {
      && bufferedBytes == Bytes(entries) && |entries| < FLUSH_MAX_ENTRIES && bufferedBytes < FLUSH_MAX_BYTES
      && sequence == |batches|
      && (forall k :: 0 <= k < |batches| ==> WellFormed(batches[k]))
      && Shipped(batches) + entries == added
    }

    method FlushLocked(now: Time)
      requires bufferedBytes == Bytes(entries) && (entries != [] ==> WellFormed(entries))
      requires sequence == |batches| && (forall k :: 0 <= k < |batches| ==> WellFormed(batches[k]))
      requires Shipped(batches) + entries == added
      modifies this`entries, this`bufferedBytes, this`sequence, this`lastFlush, this`batches
      ensures Valid() && entries == [] && lastFlush == now
      ensures batches == if old(entries) == [] then old(batches) else old(batches) + [old(entries)]
    {
      lastFlush := now;
      if entries == [] {
        return;
      }
      ghost var batch := entries;
      assert (batches + [batch])[..|batches|] == batches;
      entries, bufferedBytes := [], 0;
      sequence := sequence + 1;
      batches := batches + [batch];
    }

    method Add(entry: Entry, now: Time)
      requires Valid()
      modifies this
      ensures Valid() && added == old(added) + [entry]
      ensures old(batches) <= batches
    {
      BytesSnoc(entries, entry);
      assert (entries + [entry])[..|entries|] == entries;
      entries := entries + [entry];
      bufferedBytes := bufferedBytes + entry.size;
      added := added + [entry];
      if |entries| >= FLUSH_MAX_ENTRIES || bufferedBytes >= FLUSH_MAX_BYTES || now - lastFlush >= flushInterval {
        FlushLocked(now);
      }
    }

    method Flush(now: Time)
      requires Valid()
      modifies this
      ensures Valid() && added == old(added) && Shipped(batches) == added
    {
      if entries != [] { PrefixBytes(entries); }
      FlushLocked(now);
    }
  }

  lemma PrefixBytes(entries: seq<Entry>)
    requires entries != []
    ensures Bytes(entries[..|entries|-1]) <= Bytes(entries)
  {
  }
}
